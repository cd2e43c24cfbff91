/**
  The agent rate limiter: per-role and global windows, a daily cost, and the breaker,
  checked together before an invocation and recorded after it.
*/
module AgentLimits {
  import opened SlidingWindow
  import opened RateLimiter

  datatype Config = Config(maxPerHour: int, maxPerMinute: int, maxDailyCost: real, breaker: BreakerParams)

  // The clock readings of can_proceed, in the order of its checks.
  datatype CheckTimes = CheckTimes(breaker: real, api: real, cost: real, reset: real, role: real) {
    predicate Ordered() {
      breaker <= api <= cost <= reset <= role
    }
  }

  // The clock readings of record_invocation: an event and a clean-up for each counter.
  datatype RecordTimes = RecordTimes(role: real, roleClean: real, api: real, apiClean: real, good: real,
                                     goodClean: real) {
    predicate Ordered() {
      role <= roleClean <= api <= apiClean <= good <= goodClean
    }
  }

  class AgentRateLimiter {
    const config: Config
    var agentCounters: map<string, SlidingWindowCounter>
    const apiCounter: SlidingWindowCounter
    const circuitBreaker: CircuitBreaker
    var dailyCost: real
    var costResetTime: real
    ghost var clock: real

    ghost predicate Valid()
      reads this`agentCounters, this`clock, agentCounters.Values
      reads apiCounter, circuitBreaker, circuitBreaker.successes, circuitBreaker.failures
    {
      && apiCounter !in {circuitBreaker.successes, circuitBreaker.failures}
      && apiCounter.Valid() && apiCounter.windowSeconds == 60.0 && apiCounter.clock <= clock
      && circuitBreaker.Valid() && circuitBreaker.clock <= clock && circuitBreaker.p == config.breaker
      && (forall r :: r in agentCounters ==>
            && agentCounters[r].Valid() && agentCounters[r].windowSeconds == 3600.0 && agentCounters[r].clock <= clock
            && agentCounters[r] !in {apiCounter, circuitBreaker.successes, circuitBreaker.failures})
      && (forall r1, r2 :: r1 in agentCounters && r2 in agentCounters && r1 != r2 ==>
            agentCounters[r1] != agentCounters[r2])
    }

    // Every invocation ever recorded for the role.
    ghost function RoleHistory(role: string): seq<real>
      reads this`agentCounters, agentCounters.Values
    {
      if role in agentCounters then agentCounters[role].history else []
    }

    constructor (config: Config, now: real)
      ensures Valid() && apiCounter.history == [] && agentCounters == map[] && clock == now && this.config == config
    {
      this.config := config;
      agentCounters := map[];
      apiCounter := new SlidingWindowCounter(60.0, now);
      dailyCost := 0.0;
      costResetTime := now;
      circuitBreaker := new CircuitBreaker(config.breaker, now);
      clock := now;
    }

    // The counter of the role, created when it is first asked for.
    method CounterOf(role: string) returns (counter: SlidingWindowCounter)
      requires Valid()
      modifies this`agentCounters
      ensures Valid() && role in agentCounters && counter == agentCounters[role]
      ensures forall r :: RoleHistory(r) == old(RoleHistory(r))
      ensures fresh(agentCounters.Values - old(agentCounters.Values))
    {
      if role !in agentCounters {
        var created := new SlidingWindowCounter(3600.0, clock);
        agentCounters := agentCounters[role := created];
      }
      counter := agentCounters[role];
    }

    method CheckCircuitBreaker(t: real) returns (ok: bool)
      requires Valid() && clock <= t
      modifies this`clock, circuitBreaker
      ensures Valid() && clock == t
      ensures circuitBreaker.Full() == Next(config.breaker, old(circuitBreaker.Full()), Ask(t))
      ensures ok == Allows(config.breaker, old(circuitBreaker.Full()), t)
      ensures apiCounter.history == old(apiCounter.history)
      ensures forall r :: RoleHistory(r) == old(RoleHistory(r))
    {
      ok := circuitBreaker.IsAllowed(t);
      clock := t;
    }

    method CheckAgentRate(role: string, t: real) returns (ok: bool)
      requires Valid() && clock <= t
      modifies this`agentCounters, this`clock, agentCounters.Values
      ensures Valid() && clock == t
      ensures forall r :: RoleHistory(r) == old(RoleHistory(r))
      ensures fresh(agentCounters.Values - old(agentCounters.Values))
      ensures apiCounter.history == old(apiCounter.history) && circuitBreaker.Full() == old(circuitBreaker.Full())
      ensures ok <==> |From(RoleHistory(role), t - 3600.0)| < config.maxPerHour
    {
      hide From, Sorted;
      var counter := CounterOf(role);
      var n := counter.Count(t);
      clock := t;
      ok := n < config.maxPerHour;
    }

    method CheckApiRate(t: real) returns (ok: bool)
      requires Valid() && clock <= t
      modifies this`clock, apiCounter
      ensures Valid() && clock == t && apiCounter.history == old(apiCounter.history)
      ensures forall r :: RoleHistory(r) == old(RoleHistory(r))
      ensures circuitBreaker.Full() == old(circuitBreaker.Full())
      ensures ok <==> |From(apiCounter.history, t - 60.0)| < config.maxPerMinute
    {
      hide From;
      var n := apiCounter.Count(t);
      clock := t;
      ok := n < config.maxPerMinute;
    }

    // A day after the last reset, the cost starts again from zero.
    method CheckCostCap(t: real, reset: real) returns (ok: bool)
      requires Valid() && clock <= t <= reset
      modifies this`clock, this`dailyCost, this`costResetTime
      ensures Valid() && clock == reset
      ensures dailyCost == if t - old(costResetTime) > 86400.0 then 0.0 else old(dailyCost)
      ensures costResetTime == if t - old(costResetTime) > 86400.0 then reset else old(costResetTime)
      ensures ok <==> dailyCost < config.maxDailyCost
    {
      if t - costResetTime > 86400.0 {
        dailyCost := 0.0;
        costResetTime := reset;
      }
      clock := reset;
      ok := dailyCost < config.maxDailyCost;
    }

    /** Clears an invocation exactly while the breaker, both windows and the daily cost leave room for it. */
    method CanProceed(role: string, t: CheckTimes) returns (ok: bool)
      requires Valid() && t.Ordered() && clock <= t.breaker
      modifies this, apiCounter, circuitBreaker, agentCounters.Values
      ensures Valid() && t.breaker <= clock <= t.role
      ensures forall r :: RoleHistory(r) == old(RoleHistory(r))
      ensures apiCounter.history == old(apiCounter.history)
      ensures fresh(agentCounters.Values - old(agentCounters.Values))
      ensures circuitBreaker.Full() == Next(config.breaker, old(circuitBreaker.Full()), Ask(t.breaker))
      // The cost is looked at, and reset when its day is over, only behind the breaker and the global window.
      ensures var renewed := && Allows(config.breaker, old(circuitBreaker.Full()), t.breaker)
                             && |From(old(apiCounter.history), t.api - 60.0)| < config.maxPerMinute
                             && t.cost - old(costResetTime) > 86400.0;
              && dailyCost == (if renewed then 0.0 else old(dailyCost))
              && costResetTime == (if renewed then t.reset else old(costResetTime))
      ensures ok <==>
                && Allows(config.breaker, old(circuitBreaker.Full()), t.breaker)
                && |From(old(apiCounter.history), t.api - 60.0)| < config.maxPerMinute
                && (if t.cost - old(costResetTime) > 86400.0 then 0.0 else old(dailyCost)) < config.maxDailyCost
                && |From(old(RoleHistory(role)), t.role - 3600.0)| < config.maxPerHour
    {
      hide From, Allows, Next, Valid;
      ok := CheckCircuitBreaker(t.breaker);
      if !ok {
        return;
      }
      ok := CheckApiRate(t.api);
      if !ok {
        return;
      }
      ok := CheckCostCap(t.cost, t.reset);
      if !ok {
        return;
      }
      ok := CheckAgentRate(role, t.role);
    }

    method RecordRole(role: string, stamp: real, clean: real)
      requires Valid() && clock <= stamp <= clean
      modifies this`agentCounters, this`clock, agentCounters.Values
      ensures Valid() && clock == clean
      ensures forall r :: RoleHistory(r) == old(RoleHistory(r)) + (if r == role then [stamp] else [])
      ensures apiCounter.history == old(apiCounter.history) && circuitBreaker.Full() == old(circuitBreaker.Full())
      ensures fresh(agentCounters.Values - old(agentCounters.Values))
    {
      hide From, Sorted;
      var counter := CounterOf(role);
      counter.Record(stamp, clean);
      clock := clean;
    }

    method RecordApi(stamp: real, clean: real)
      requires Valid() && clock <= stamp <= clean
      modifies this`clock, apiCounter
      ensures Valid() && clock == clean && apiCounter.history == old(apiCounter.history) + [stamp]
      ensures forall r :: RoleHistory(r) == old(RoleHistory(r))
      ensures circuitBreaker.Full() == old(circuitBreaker.Full())
    {
      apiCounter.Record(stamp, clean);
      clock := clean;
    }

    method RecordGood(stamp: real, clean: real)
      requires Valid() && clock <= stamp <= clean
      modifies this`clock, circuitBreaker, circuitBreaker.successes, circuitBreaker.failures
      ensures Valid() && clock == clean && apiCounter.history == old(apiCounter.history)
      ensures forall r :: RoleHistory(r) == old(RoleHistory(r))
      ensures circuitBreaker.Full() == Next(config.breaker, old(circuitBreaker.Full()), Success(stamp, clean))
    {
      hide From, Sorted, Next;
      circuitBreaker.RecordSuccess(stamp, clean);
      clock := clean;
    }

    method RecordInvocation(role: string, cost: real, t: RecordTimes)
      requires Valid() && t.Ordered() && clock <= t.role
      modifies this`agentCounters, this`clock, this`dailyCost, apiCounter, agentCounters.Values
      modifies circuitBreaker, circuitBreaker.successes, circuitBreaker.failures
      ensures Valid() && clock == t.goodClean
      ensures apiCounter.history == old(apiCounter.history) + [t.api]
      ensures forall r :: RoleHistory(r) == old(RoleHistory(r)) + (if r == role then [t.role] else [])
      ensures dailyCost == old(dailyCost) + cost
      ensures circuitBreaker.Full() == Next(config.breaker, old(circuitBreaker.Full()), Success(t.good, t.goodClean))
    {
      hide From, Next, Valid;
      RecordRole(role, t.role, t.roleClean);
      RecordApi(t.api, t.apiClean);
      dailyCost := dailyCost + cost;
      RecordGood(t.good, t.goodClean);
    }

    method RecordFailure(r: Readings)
      requires Valid() && r.Ordered() && clock <= r.stamp
      modifies this`clock, circuitBreaker, circuitBreaker.successes, circuitBreaker.failures
      ensures Valid() && clock == r.again
      ensures circuitBreaker.Full() == Next(config.breaker, old(circuitBreaker.Full()), Failure(r))
    {
      circuitBreaker.RecordFailure(r);
      clock := r.again;
    }
  }

  // ---------------------------------------------------------------- caps on histories

  // An invocation with the checks that cleared it.
  datatype Call = Call(role: string, roleCheck: real, roleStamp: real, apiCheck: real, apiStamp: real)

  function ApiTimes(log: seq<Call>): seq<real> {
    if log == [] then [] else ApiTimes(log[..|log| - 1]) + [log[|log| - 1].apiStamp]
  }

  function ApiChecks(log: seq<Call>): seq<real> {
    if log == [] then [] else ApiChecks(log[..|log| - 1]) + [log[|log| - 1].apiCheck]
  }

  function RoleTimes(log: seq<Call>, role: string): seq<real> {
    if log == [] then []
    else RoleTimes(log[..|log| - 1], role) + (if log[|log| - 1].role == role then [log[|log| - 1].roleStamp] else [])
  }

  function RoleChecks(log: seq<Call>, role: string): seq<real> {
    if log == [] then []
    else RoleChecks(log[..|log| - 1], role) + (if log[|log| - 1].role == role then [log[|log| - 1].roleCheck] else [])
  }

  // Each call was cleared by CanProceed against the calls before it, and recorded afterwards in clock order.
  ghost predicate ClearedOne(config: Config, before: seq<Call>, c: Call) {
    && c.apiCheck <= c.roleCheck <= c.roleStamp <= c.apiStamp
    && (before != [] ==> before[|before| - 1].apiStamp <= c.apiCheck)
    && |From(ApiTimes(before), c.apiCheck - 60.0)| < config.maxPerMinute
    && |From(RoleTimes(before, c.role), c.roleCheck - 3600.0)| < config.maxPerHour
  }

  ghost predicate Cleared(config: Config, log: seq<Call>) {
    log == [] || (var n := |log| - 1; Cleared(config, log[..n]) && ClearedOne(config, log[..n], log[n]))
  }

  lemma {:induction false} LogAdmits(config: Config, log: seq<Call>, role: string, t: real)
    requires Cleared(config, log)
    requires log != [] ==> log[|log| - 1].apiStamp <= t
    ensures Admitted(ApiTimes(log), ApiChecks(log), 60.0, config.maxPerMinute)
    ensures Admitted(RoleTimes(log, role), RoleChecks(log, role), 3600.0, config.maxPerHour)
    ensures forall k :: 0 <= k < |ApiTimes(log)| ==> ApiTimes(log)[k] <= t
    ensures forall k :: 0 <= k < |RoleTimes(log, role)| ==> RoleTimes(log, role)[k] <= t
  {
    hide From, Admitted;
    if log == [] {
      NothingAdmitted(60.0, config.maxPerMinute);
      NothingAdmitted(3600.0, config.maxPerHour);
    } else {
      var n := |log| - 1;
      var before, c := log[..n], log[n];
      LogAdmits(config, before, role, c.apiCheck);
      AdmitOne(ApiTimes(before), ApiChecks(before), c.apiCheck, c.apiStamp, 60.0, config.maxPerMinute);
      if c.role == role {
        AdmitOne(RoleTimes(before, role), RoleChecks(before, role), c.roleCheck, c.roleStamp, 3600.0,
                 config.maxPerHour);
      } else {
        assert RoleTimes(log, role) == RoleTimes(before, role) && RoleChecks(log, role) == RoleChecks(before, role);
      }
    }
  }

  lemma {:induction false} NothingAdmitted(window: real, limit: int)
    ensures Admitted([], [], window, limit)
  {
  }

  /**
    When every invocation is recorded right after it is cleared, no minute exceeds the global cap and no
    hour exceeds the cap of any role, wherever the interval starts.
   */
  lemma {:induction false} CapsInEveryInterval(config: Config, log: seq<Call>, role: string, from: real)
    requires Cleared(config, log)
    ensures Capped(ApiTimes(log), from, 60.0, config.maxPerMinute)
    ensures Capped(RoleTimes(log, role), from, 3600.0, config.maxPerHour)
  {
    hide From, Admitted, Capped, Cleared;
    LogAdmits(config, log, role, if log == [] then 0.0 else log[|log| - 1].apiStamp);
    LimitInEveryInterval(ApiTimes(log), ApiChecks(log), 60.0, config.maxPerMinute, from);
    LimitInEveryInterval(RoleTimes(log, role), RoleChecks(log, role), 3600.0, config.maxPerHour, from);
  }

  // The log is what the limiter has recorded, each entry of it cleared.
  ghost predicate Logged(limiter: AgentRateLimiter, log: seq<Call>)
    reads limiter, limiter.apiCounter, limiter.agentCounters.Values
  {
    && Cleared(limiter.config, log)
    && limiter.apiCounter.history == ApiTimes(log)
    && (forall r :: limiter.RoleHistory(r) == RoleTimes(log, r))
    && (log != [] ==> log[|log| - 1].apiStamp <= limiter.clock)
  }

  /** The protocol of a caller: ask, and when cleared record at once. Its log is one that the caps hold for. */
  method Invoke(limiter: AgentRateLimiter, role: string, cost: real, check: CheckTimes, record: RecordTimes,
                ghost log: seq<Call>)
    returns (ok: bool, ghost more: seq<Call>)
    requires limiter.Valid() && check.Ordered() && record.Ordered()
    requires limiter.clock <= check.breaker && check.role <= record.role
    requires Logged(limiter, log)
    modifies limiter, limiter.apiCounter, limiter.agentCounters.Values
    modifies limiter.circuitBreaker, limiter.circuitBreaker.successes, limiter.circuitBreaker.failures
    ensures limiter.Valid() && Logged(limiter, more)
    ensures more == log + (if ok then [Call(role, check.role, record.role, check.api, record.api)] else [])
  {
    hide From, Allows, Next, AgentRateLimiter.Valid, ApiTimes, RoleTimes, Cleared;
    more := log;
    ok := limiter.CanProceed(role, check);
    if ok {
      var c := Call(role, check.role, record.role, check.api, record.api);
      limiter.RecordInvocation(role, cost, record);
      more := log + [c];
      OneMoreCall(limiter.config, log, c);
    }
  }

  /** So a limiter used by that protocol has let no interval exceed a cap. */
  lemma {:induction false} LoggedIsCapped(limiter: AgentRateLimiter, log: seq<Call>, role: string, from: real)
    requires Logged(limiter, log)
    ensures Capped(limiter.apiCounter.history, from, 60.0, limiter.config.maxPerMinute)
    ensures Capped(limiter.RoleHistory(role), from, 3600.0, limiter.config.maxPerHour)
  {
    hide Capped, Cleared;
    CapsInEveryInterval(limiter.config, log, role, from);
  }

  lemma {:induction false} OneMoreCall(config: Config, log: seq<Call>, c: Call)
    requires Cleared(config, log) && ClearedOne(config, log, c)
    ensures Cleared(config, log + [c])
    ensures ApiTimes(log + [c]) == ApiTimes(log) + [c.apiStamp]
    ensures forall r :: RoleTimes(log + [c], r) == RoleTimes(log, r) + (if r == c.role then [c.roleStamp] else [])
  {
    hide ClearedOne;
    assert (log + [c])[..|log|] == log;
  }
}
