/**
  The circuit breaker. The specification keeps the full history of outcomes; the class
  keeps pruned windows and is proved to decide alike.
*/
module RateLimiter {
  import opened SlidingWindow

  // ---------------------------------------------------------------- the breaker on full histories

  datatype Circuit = Closed | Open | HalfOpen

  datatype BreakerParams = BreakerParams(threshold: real, window: real, cooldown: real)

  datatype Breaker = Breaker(state: Circuit, successes: seq<real>, failures: seq<real>, lastFailure: real)

  // The clock readings of record_failure, in order: the event, the clean-up after it, the last failure
  // time, and the counts of _check_threshold.
  datatype Readings = Readings(stamp: real, clean: real, last: real, good: real, bad: real, again: real) {
    predicate Ordered() {
      stamp <= clean <= last <= good <= bad <= again
    }
  }

  datatype Op =
    | Success(stamp: real, clean: real)
    | Failure(r: Readings)
    | Ask(t: real)
  {
    function First(): real {
      match this
      case Success(stamp, _) => stamp
      case Failure(r) => r.stamp
      case Ask(t) => t
    }
    function Last(): real {
      match this
      case Success(_, clean) => clean
      case Failure(r) => r.again
      case Ask(t) => t
    }
    predicate Ordered() {
      match this
      case Success(stamp, clean) => stamp <= clean
      case Failure(r) => r.Ordered()
      case Ask(_) => true
    }
  }

  // The error rate over the window exceeds the threshold, with at least five outcomes counted.
  predicate Trips(p: BreakerParams, b: Breaker, r: Readings) {
    var total := |From(b.successes, r.good - p.window)| + |From(b.failures, r.bad - p.window)|;
    total >= 5 && |From(b.failures, r.again - p.window)| as real / total as real > p.threshold
  }

  function AfterFailure(p: BreakerParams, b: Breaker, r: Readings): Breaker {
    var recorded := b.(failures := b.failures + [r.stamp], lastFailure := r.last);
    if Trips(p, recorded, r) then recorded.(state := Open) else recorded
  }

  function AfterSuccess(b: Breaker, stamp: real): Breaker {
    b.(successes := b.successes + [stamp], state := if b.state == HalfOpen then Closed else b.state)
  }

  predicate Allows(p: BreakerParams, b: Breaker, t: real) {
    b.state != Open || t - b.lastFailure >= p.cooldown
  }

  function AfterAsk(p: BreakerParams, b: Breaker, t: real): Breaker {
    if b.state == Open && Allows(p, b, t) then b.(state := HalfOpen) else b
  }

  function Next(p: BreakerParams, b: Breaker, op: Op): Breaker {
    match op
    case Success(stamp, _) => AfterSuccess(b, stamp)
    case Failure(r) => AfterFailure(p, b, r)
    case Ask(t) => AfterAsk(p, b, t)
  }

  const NEW_BREAKER := Breaker(Closed, [], [], 0.0)

  // bs[k] is the breaker before operation k.
  ghost predicate IsRun(p: BreakerParams, bs: seq<Breaker>, ops: seq<Op>) {
    && |bs| == |ops| + 1 && bs[0] == NEW_BREAKER
    && (forall k {:trigger ops[k]} :: 0 <= k < |ops| ==> ops[k].Ordered() && bs[k + 1] == Next(p, bs[k], ops[k]))
    && (forall j, k :: 0 <= j < k < |ops| ==> ops[j].Last() <= ops[k].First())
  }

  // ---------------------------------------------------------------- breaker runs

  // Every failure is recorded no later than the time of the last one.
  ghost predicate FailuresBelow(b: Breaker) {
    forall k :: 0 <= k < |b.failures| ==> b.failures[k] <= b.lastFailure
  }

  lemma {:induction false} FailuresBelowLast(p: BreakerParams, bs: seq<Breaker>, ops: seq<Op>, n: nat)
    requires IsRun(p, bs, ops) && n <= |ops|
    ensures FailuresBelow(bs[n])
    ensures bs[n].failures != [] ==> exists k :: 0 <= k < n && ops[k].Failure? && bs[n].lastFailure == ops[k].r.last
  {
    hide Trips, From;
    if n > 0 {
      FailuresBelowLast(p, bs, ops, n - 1);
      var op := ops[n - 1];
      if op.Failure? && bs[n - 1].failures != [] {
        var k :| 0 <= k < n - 1 && ops[k].Failure? && bs[n - 1].lastFailure == ops[k].r.last;
        assert ops[k].Last() <= op.First() && ops[k].Ordered() && op.Ordered();
      }
    }
  }

  // The operation is a request that was let through.
  predicate Allowed(p: BreakerParams, bs: seq<Breaker>, ops: seq<Op>, k: nat)
    requires |bs| == |ops| + 1 && k < |ops|
  {
    ops[k].Ask? && Allows(p, bs[k], ops[k].t)
  }

  lemma {:induction false} StaysOpen(p: BreakerParams, bs: seq<Breaker>, ops: seq<Op>, k: nat, n: nat)
    requires IsRun(p, bs, ops) && k < n <= |ops|
    requires ops[k].Failure? && bs[k + 1].state == Open
    requires forall i: nat :: k < i < n ==> !Allowed(p, bs, ops, i)
    ensures bs[n].state == Open && bs[n].lastFailure >= ops[k].r.last
    decreases n
  {
    hide Trips, From;
    if n > k + 1 {
      StaysOpen(p, bs, ops, k, n - 1);
      assert !Allowed(p, bs, ops, n - 1);
      assert ops[k].Last() <= ops[n - 1].First() && ops[k].Ordered() && ops[n - 1].Ordered();
    }
  }

  /**
    From a failure that leaves the breaker open to the next request let through, at least the cooldown
    passes, whatever successes and failures are recorded in between.
   */
  lemma {:induction false} CooldownKept(p: BreakerParams, bs: seq<Breaker>, ops: seq<Op>, k: nat, n: nat)
    requires IsRun(p, bs, ops) && k < n < |ops|
    requires ops[k].Failure? && bs[k + 1].state == Open
    requires forall i: nat :: k < i < n ==> !Allowed(p, bs, ops, i)
    requires Allowed(p, bs, ops, n)
    ensures ops[n].t - ops[k].r.last >= p.cooldown
  {
    StaysOpen(p, bs, ops, k, n);
  }

  /** With a cooldown longer than the window, a breaker turns half-open with no failure left in the window. */
  lemma {:induction false} HalfOpensClean(p: BreakerParams, bs: seq<Breaker>, ops: seq<Op>, n: nat)
    requires IsRun(p, bs, ops) && n < |ops| && p.window < p.cooldown
    requires bs[n].state == Open && bs[n + 1].state == HalfOpen
    ensures ops[n].Ask? && From(bs[n + 1].failures, ops[n].t - p.window) == []
  {
    hide Trips, From;
    FailuresBelowLast(p, bs, ops, n);
    FromNone(bs[n].failures, ops[n].t - p.window);
  }

  ghost function FailuresSince(ops: seq<Op>, from: nat, n: nat): nat
    requires from <= n <= |ops|
  {
    if n == from then 0 else FailuresSince(ops, from, n - 1) + (if ops[n - 1].Failure? then 1 else 0)
  }

  lemma {:induction false} FreshFailures(p: BreakerParams, bs: seq<Breaker>, ops: seq<Op>, n: nat, m: nat, cutoff: real)
    requires IsRun(p, bs, ops) && n <= m <= |ops|
    requires From(bs[n].failures, cutoff) == []
    ensures |From(bs[m].failures, cutoff)| <= FailuresSince(ops, n, m)
    decreases m
  {
    hide Trips, From;
    if m > n {
      FreshFailures(p, bs, ops, n, m - 1, cutoff);
      var op := ops[m - 1];
      if op.Failure? {
        assert bs[m].failures == bs[m - 1].failures + [op.r.stamp];
        FromJoin(bs[m - 1].failures, [op.r.stamp], cutoff);
        FromAtMost([op.r.stamp], cutoff);
      }
    }
  }

  lemma {:induction false} FromAtMost(times: seq<real>, cutoff: real)
    ensures |From(times, cutoff)| <= |times|
  {
    if times != [] {
      FromAtMost(times[..|times| - 1], cutoff);
    }
  }

  /**
    After a clean half-open, the breaker trips again only on failures recorded since: more than five times
    the threshold of them, however the earlier outcomes look.
   */
  lemma {:induction false} RetripNeedsFreshFailures(p: BreakerParams, bs: seq<Breaker>, ops: seq<Op>, n: nat, k: nat)
    requires IsRun(p, bs, ops) && n < k < |ops| && p.window < p.cooldown && p.threshold >= 0.0
    requires bs[n].state == Open && bs[n + 1].state == HalfOpen
    requires ops[k].Failure? && bs[k].state != Open && bs[k + 1].state == Open
    ensures FailuresSince(ops, n + 1, k + 1) as real > p.threshold * 5.0
  {
    hide From;
    HalfOpensClean(p, bs, ops, n);
    var r := ops[k].r;
    assert r.Ordered() && ops[n].Last() <= ops[k].First();
    var late := r.again - p.window;
    FromLater(bs[n + 1].failures, ops[n].t - p.window, late);
    assert From(bs[n + 1].failures, late) == [];
    FreshFailures(p, bs, ops, n + 1, k + 1, late);
    var counted := |From(bs[k + 1].failures, late)|;
    var total := |From(bs[k + 1].successes, r.good - p.window)| + |From(bs[k + 1].failures, r.bad - p.window)|;
    assert bs[k + 1].failures == bs[k].failures + [r.stamp] && bs[k + 1].successes == bs[k].successes;
    RateBound(counted, total, p.threshold);
  }

  lemma {:induction false} RateBound(counted: nat, total: nat, threshold: real)
    requires total >= 5 && threshold >= 0.0 && counted as real / total as real > threshold
    ensures counted as real > threshold * 5.0
  {
    var t := total as real;
    assert counted as real == (counted as real / t) * t;
    assert (counted as real / t) * t > threshold * t;
    assert threshold * t >= threshold * 5.0;
  }

  // ---------------------------------------------------------------- requests while half-open

  // The operation leaves a half-open breaker half-open: a request, or a failure that does not trip it.
  predicate Undecided(bs: seq<Breaker>, ops: seq<Op>, k: nat)
    requires |bs| == |ops| + 1 && k < |ops|
  {
    ops[k].Ask? || (ops[k].Failure? && bs[k + 1].state != Open)
  }

  // A half-open breaker is left by the first success, or by the first failure that trips it, and no sooner.
  lemma {:induction false} HalfOpenUntilDecided(p: BreakerParams, bs: seq<Breaker>, ops: seq<Op>, n: nat, m: nat)
    requires IsRun(p, bs, ops) && n <= m <= |ops| && bs[n].state == HalfOpen
    ensures (forall i: nat :: n <= i <= m ==> bs[i].state == HalfOpen)
            <==> forall k: nat :: n <= k < m ==> Undecided(bs, ops, k)
    decreases m
  {
    hide Trips, From;
    if m > n {
      HalfOpenUntilDecided(p, bs, ops, n, m - 1);
      assert ops[m - 1].Ordered() && bs[m] == Next(p, bs[m - 1], ops[m - 1]);
      if forall i: nat :: n <= i <= m ==> bs[i].state == HalfOpen {
        assert bs[m - 1].state == HalfOpen && bs[m].state == HalfOpen;
      }
      if forall k: nat :: n <= k < m ==> Undecided(bs, ops, k) {
        assert Undecided(bs, ops, m - 1);
      }
    }
  }

  // The requests among the operations from n up to m, and those of them that are let through.
  ghost function Asked(ops: seq<Op>, n: nat, m: nat): nat
    requires n <= m <= |ops|
  {
    if m == n then 0 else Asked(ops, n, m - 1) + (if ops[m - 1].Ask? then 1 else 0)
  }

  ghost function LetThrough(p: BreakerParams, bs: seq<Breaker>, ops: seq<Op>, n: nat, m: nat): nat
    requires n <= m <= |ops| && |bs| == |ops| + 1
  {
    if m == n then 0 else LetThrough(p, bs, ops, n, m - 1) + (if Allowed(p, bs, ops, m - 1) then 1 else 0)
  }

  /**
    From the request that turns the breaker half-open until an outcome decides it, every request is let
    through: it is one test request exactly when the callers ask once.
   */
  lemma {:induction false} HalfOpenLetsAllThrough(p: BreakerParams, bs: seq<Breaker>, ops: seq<Op>, n: nat, m: nat)
    requires IsRun(p, bs, ops) && n < m <= |ops|
    requires bs[n].state == Open && bs[n + 1].state == HalfOpen
    requires forall k: nat :: n < k < m ==> Undecided(bs, ops, k)
    ensures LetThrough(p, bs, ops, n, m) == Asked(ops, n, m) >= 1
    ensures LetThrough(p, bs, ops, n, m) == 1 <==> forall k: nat :: n < k < m ==> !ops[k].Ask?
    decreases m
  {
    hide Trips, From;
    HalfOpenUntilDecided(p, bs, ops, n + 1, m);
    if m > n + 1 {
      HalfOpenLetsAllThrough(p, bs, ops, n, m - 1);
      assert bs[m - 1].state == HalfOpen;
      assert (forall k: nat :: n < k < m ==> !ops[k].Ask?) <==>
             (forall k: nat :: n < k < m - 1 ==> !ops[k].Ask?) && !ops[m - 1].Ask?;
    } else {
      assert bs[n + 1] == Next(p, bs[n], ops[n]);
    }
  }

  // A failure with all its clock readings at one time.
  function FailureAt(t: real): Op {
    Failure(Readings(t, t, t, t, t, t))
  }

  const DEFAULT_BREAKER := BreakerParams(0.3, 300.0, 600.0)

  // The breaker after n failures, at times 1 to n.
  function Failed(n: nat): Breaker {
    if n == 0 then NEW_BREAKER else Next(DEFAULT_BREAKER, Failed(n - 1), FailureAt(n as real))
  }

  lemma {:induction false} FiveFailuresTrip(n: nat)
    requires n <= 5
    ensures var b := Failed(n);
            && |b.failures| == n && b.successes == []
            && (forall k :: 0 <= k < n ==> 1.0 <= b.failures[k] <= n as real)
            && b.lastFailure == n as real && b.state == if n == 5 then Open else Closed
  {
    hide From;
    if n > 0 {
      FiveFailuresTrip(n - 1);
      var b, t := Failed(n - 1), n as real;
      FromAll(b.failures + [t], t - 300.0);
      FromNone([], t - 300.0);
    }
  }

  /** Five failures, and two requests ten minutes later with no outcome in between: both are let through. */
  lemma {:induction false} TwoRequestsInHalfOpen() returns (bs: seq<Breaker>, ops: seq<Op>)
    ensures IsRun(DEFAULT_BREAKER, bs, ops) && |ops| == 7
    ensures bs[5].state == Open && bs[6].state == HalfOpen && ops[5].Ask? && ops[6].Ask?
    ensures Allowed(DEFAULT_BREAKER, bs, ops, 5) && Allowed(DEFAULT_BREAKER, bs, ops, 6)
  {
    hide Next, Failed;
    var half := Failed(5).(state := HalfOpen);
    HalfOpensAfterFive();
    bs := [Failed(0), Failed(1), Failed(2), Failed(3), Failed(4), Failed(5), half, half];
    ops := [FailureAt(1.0), FailureAt(2.0), FailureAt(3.0), FailureAt(4.0), FailureAt(5.0), Ask(605.0), Ask(606.0)];
    forall k {:trigger ops[k]} | 0 <= k < 7
      ensures ops[k].Ordered() && bs[k + 1] == Next(DEFAULT_BREAKER, bs[k], ops[k])
    {
      if k < 5 {
        FailedNext(k);
      }
    }
  }

  lemma {:induction false} FailedNext(n: nat)
    ensures Failed(n + 1) == Next(DEFAULT_BREAKER, Failed(n), FailureAt((n + 1) as real))
    ensures Failed(0) == NEW_BREAKER
  {
    hide Next;
  }

  lemma {:induction false} HalfOpensAfterFive()
    ensures var b := Failed(5);
            var half := b.(state := HalfOpen);
            && b.state == Open && Failed(0) == NEW_BREAKER
            && Next(DEFAULT_BREAKER, b, Ask(605.0)) == half == Next(DEFAULT_BREAKER, half, Ask(606.0))
            && Allows(DEFAULT_BREAKER, b, 605.0)
  {
    hide Trips, From;
    FiveFailuresTrip(5);
  }

  // ---------------------------------------------------------------- the breaker as a class

  class CircuitBreaker {
    const p: BreakerParams
    var state: Circuit
    const successes: SlidingWindowCounter
    const failures: SlidingWindowCounter
    var lastFailureTime: real
    ghost var clock: real

    ghost predicate Valid()
      reads this, successes, failures
    {
      && successes != failures
      && successes.Valid() && failures.Valid()
      && successes.windowSeconds == failures.windowSeconds == p.window
      && successes.clock <= clock && failures.clock <= clock
    }

    // The breaker with its full histories.
    ghost function Full(): Breaker
      reads this, successes, failures
    {
      Breaker(state, successes.history, failures.history, lastFailureTime)
    }

    constructor (p: BreakerParams, ghost now: real)
      ensures Valid() && Full() == NEW_BREAKER && this.p == p && clock == now
      ensures fresh(successes) && fresh(failures)
    {
      this.p := p;
      state := Closed;
      successes := new SlidingWindowCounter(p.window, now);
      failures := new SlidingWindowCounter(p.window, now);
      lastFailureTime := 0.0;
      clock := now;
    }

    method RecordSuccess(stamp: real, clean: real)
      requires Valid() && clock <= stamp <= clean
      modifies this, successes, failures
      ensures Valid() && clock == clean && Full() == Next(p, old(Full()), Success(stamp, clean))
    {
      successes.Record(stamp, clean);
      if state == HalfOpen {
        state := Closed;
      }
      clock := clean;
    }

    method RecordFailure(r: Readings)
      requires Valid() && clock <= r.stamp && r.Ordered()
      modifies this, successes, failures
      ensures Valid() && clock == r.again && Full() == Next(p, old(Full()), Failure(r))
    {
      hide From, Sorted;
      failures.Record(r.stamp, r.clean);
      lastFailureTime := r.last;
      var good := successes.Count(r.good);
      var bad := failures.Count(r.bad);
      var total := good + bad;
      clock := r.again;
      if total < 5 {
        return;
      }
      var again := failures.Count(r.again);
      var errorRate := again as real / total as real;
      if errorRate > p.threshold {
        state := Open;
      }
    }

    method IsAllowed(t: real) returns (allowed: bool)
      requires Valid() && clock <= t
      modifies this
      ensures Valid() && clock == t && Full() == Next(p, old(Full()), Ask(t))
      ensures allowed == Allows(p, old(Full()), t)
    {
      clock := t;
      if state == Closed {
        return true;
      }
      if state == Open {
        var elapsed := t - lastFailureTime;
        if elapsed >= p.cooldown {
          state := HalfOpen;
          return true;
        }
        return false;
      }
      return true;
    }
  }
}
