/**
  When exactly a step moves the state or the nameservers, in terms of the clock, the scores and the fields of
  the file, and what follows for whole runs: manual authorization, ticks that see no scores, default settings.
*/
module FailoverSteps {
  import opened FailoverModel
  import opened FailoverSafety
  import opened FailoverAgreement

  // At least the bound has passed since a time that may never have been set.
  predicate Elapsed(now: int, s: Stamp, bound: int) {
    s.At? ==> now - s.t >= bound
  }

  function Score(d: Deployment, w: World, i: Input): Option<real> {
    PrimaryScore(Loaded(d, w.file, i.t.load), i.scores)
  }

  predicate Good(score: Option<real>) { score.Some? && score.value >= 0.5 }
  predicate Bad(score: Option<real>) { score.Some? && score.value < 0.5 }

  // ---------------------------------------------------------------- the file, state by state

  /** HEALTHY is left exactly for a bad primary, after the dwell, and the first bad check is counted. */
  lemma {:induction false} HealthyExactly(d: Deployment, w: World, i: Input, crash: Crash)
    requires d.params.Sane() && StateOf(w.file) == Healthy
    ensures var s, file := Loaded(d, w.file, i.t.load), Step(d, w, i, crash).file;
            var moves := Commits(i, crash) && Bad(Score(d, w, i))
                         && Elapsed(i.t.dwell, s.lastTransition, d.params.minTimeInState);
            file == if moves
            then Valid(s.(state := Degraded, degradedCount := 1, lastTransition := At(i.t.stamp),
                          updatedAt := At(i.t.save)))
            else w.file
  {
    SinceMeans(i.t.dwell, Loaded(d, w.file, i.t.load).lastTransition, d.params.minTimeInState);
  }

  // What lets a failover start, apart from the score.
  predicate FailoverAllowed(d: Deployment, s: Snapshot, t: Readings) {
    && s.degradedCount >= 2
    && Elapsed(t.dwell, s.lastTransition, d.params.minTimeInState)
    && Elapsed(t.cool, s.lastFailover, d.params.failoverCooldown)
    && s.dailyCount < d.params.maxDailyFailovers
    && !d.params.requireManualAuth
  }

  /**
    DEGRADED: a good check goes back after the dwell; a bad one is counted up to the second, and starts a
    failover from the third on, exactly when dwell, cooldown, daily limit and authorization allow it.
   */
  lemma {:induction false} DegradedExactly(d: Deployment, w: World, i: Input, crash: Crash)
    requires d.params.Sane() && StateOf(w.file) == Degraded
    ensures var s, file, score := Loaded(d, w.file, i.t.load), Step(d, w, i, crash).file, Score(d, w, i);
            var moved := s.(lastTransition := At(i.t.stamp), updatedAt := At(i.t.save));
            file ==
            if !Commits(i, crash) then w.file
            else if Good(score) && Elapsed(i.t.dwell, s.lastTransition, d.params.minTimeInState)
            then Valid(moved.(state := Healthy, degradedCount := 0))
            else if Bad(score) && FailoverAllowed(d, s, i.t)
            then Valid(moved.(state := FailingOver, degradedCount := s.degradedCount + 1))
            else if Bad(score) && s.degradedCount < 2
            then Valid(s.(degradedCount := s.degradedCount + 1, updatedAt := At(i.t.save)))
            else w.file
  {
    var s := Loaded(d, w.file, i.t.load);
    SinceMeans(i.t.dwell, s.lastTransition, d.params.minTimeInState);
    SinceMeans(i.t.cool, s.lastFailover, d.params.failoverCooldown);
  }

  /** FAILING_OVER is left exactly after the dwell: forward when nothing failed, and back otherwise. */
  lemma {:induction false} FailingOverExactly(d: Deployment, w: World, i: Input, crash: Crash)
    requires d.params.Sane() && StateOf(w.file) == FailingOver
    ensures var s, file := Loaded(d, w.file, i.t.load), Step(d, w, i, crash).file;
            var moved := s.(lastTransition := At(i.t.stamp), updatedAt := At(i.t.save));
            file ==
            if !Commits(i, crash) || !Elapsed(i.t.dwell, s.lastTransition, d.params.minTimeInState) then w.file
            else if i.getNs && s.secondaryId != "" && i.update.Applied?
            then Valid(moved.(state := FailedOver, lastFailover := At(i.t.act), dailyCount := s.dailyCount + 1,
                              degradedCount := 0))
            else Valid(moved.(state := Degraded))
  {
    SinceMeans(i.t.dwell, Loaded(d, w.file, i.t.load).lastTransition, d.params.minTimeInState);
  }

  /** FAILED_OVER is left exactly for a primary above the recovery threshold, after the dwell. */
  lemma {:induction false} FailedOverExactly(d: Deployment, w: World, i: Input, crash: Crash)
    requires d.params.Sane() && StateOf(w.file) == FailedOver
    ensures var s, file, score := Loaded(d, w.file, i.t.load), Step(d, w, i, crash).file, Score(d, w, i);
            file ==
            if Commits(i, crash) && score.Some? && score.value > 0.7
               && Elapsed(i.t.dwell, s.lastTransition, d.params.minTimeInState)
            then Valid(s.(state := Recovering, recoveryStart := At(i.t.act), lastTransition := At(i.t.stamp),
                          updatedAt := At(i.t.save)))
            else w.file
  {
    SinceMeans(i.t.dwell, Loaded(d, w.file, i.t.load).lastTransition, d.params.minTimeInState);
  }

  // The primary is well, the recovery cooldown is over, and there is a primary to go back to.
  predicate FailbackDue(d: Deployment, s: Snapshot, score: Option<real>, act: int) {
    Good(score) && Elapsed(act, s.recoveryStart, d.params.recoveryCooldown) && s.primaryId != ""
  }

  /**
    RECOVERING is left exactly after the dwell: back to FAILED_OVER for scores that were read and do not show a
    good primary, on to HEALTHY when the failback is due and went through.
   */
  lemma {:induction false} RecoveringExactly(d: Deployment, w: World, i: Input, crash: Crash)
    requires d.params.Sane() && StateOf(w.file) == Recovering
    ensures var s, file, score := Loaded(d, w.file, i.t.load), Step(d, w, i, crash).file, Score(d, w, i);
            var moved := s.(lastTransition := At(i.t.stamp), updatedAt := At(i.t.save));
            file ==
            if !Commits(i, crash) || !Elapsed(i.t.dwell, s.lastTransition, d.params.minTimeInState) then w.file
            else if i.scores.Scores? && score.None? then Valid(moved.(state := FailedOver))
            else if Bad(score) then Valid(moved.(state := FailedOver, recoveryStart := Zero))
            else if FailbackDue(d, s, score, i.t.act) && i.update.Applied?
            then Valid(moved.(state := Healthy, degradedCount := 0, recoveryStart := Zero))
            else w.file
  {
    var s := Loaded(d, w.file, i.t.load);
    SinceMeans(i.t.dwell, s.lastTransition, d.params.minTimeInState);
    SinceMeans(i.t.act, s.recoveryStart, d.params.recoveryCooldown);
  }

  // ---------------------------------------------------------------- the nameservers

  // The tick gets as far as its handler.
  predicate Acts(i: Input, crash: Crash) {
    i.readable && !crash.DiesBeforeUpdate?
  }

  predicate SendsFailover(w: World, i: Input, crash: Crash) {
    && Acts(i, crash) && StateOf(w.file) == FailingOver
    && i.getNs && w.file.snapshot.secondaryId != "" && !i.update.Refused?
  }

  predicate SendsFailback(d: Deployment, w: World, i: Input, crash: Crash) {
    && Acts(i, crash) && StateOf(w.file) == Recovering
    && FailbackDue(d, w.file.snapshot, Score(d, w, i), i.t.act) && !i.update.Refused?
  }

  /** The nameservers change exactly for a failover or a failback that reaches the registrar. */
  lemma {:induction false} NameserversExactly(d: Deployment, w: World, i: Input, crash: Crash)
    requires d.params.Sane()
    ensures Step(d, w, i, crash).ns ==
            if SendsFailover(w, i, crash)
            then w.ns[DomainOf(d, w.file) := ["ns1.secondary-provider.com", "ns2.secondary-provider.com"]]
            else if SendsFailback(d, w, i, crash)
            then w.ns[DomainOf(d, w.file) := ["ns1.primary-provider.com", "ns2.primary-provider.com"]]
            else w.ns
  {
    SinceMeans(i.t.act, Loaded(d, w.file, i.t.load).recoveryStart, d.params.recoveryCooldown);
  }

  // ---------------------------------------------------------------- manual authorization

  /** With manual authorization required, no step enters FAILING_OVER, and outside it none sends a failover. */
  lemma {:induction false} UnauthorizedStep(d: Deployment, w: World, i: Input, crash: Crash)
    requires d.params.Sane() && d.params.requireManualAuth && StateOf(w.file) != FailingOver
    ensures var w' := Step(d, w, i, crash);
            && StateOf(w'.file) != FailingOver
            && (w'.ns == w.ns || w'.ns == w.ns[DomainOf(d, w.file) := PRIMARY_NS])
  {
    hide Step;
    NameserversExactly(d, w, i, crash);
    StepShape(d, w, i, crash);
    if StateOf(w.file) == Degraded {
      DegradedExactly(d, w, i, crash);
    }
  }

  // The traffic of a domain is on the secondary provider.
  predicate OnSecondary(w: World, domain: string) {
    NsOf(w.ns, domain) == SECONDARY_NS
  }

  /**
    With manual authorization required, a run that does not start in FAILING_OVER never gets there: it records
    no failover and takes no domain to the secondary nameservers.
   */
  lemma {:induction false} NothingUnauthorized(d: Deployment, ws: seq<World>, es: seq<Event>, n: nat, domain: string)
    requires d.params.Sane() && d.params.requireManualAuth && IsRun(d, ws, es) && n <= |es|
    requires StateOf(ws[0].file) != FailingOver
    ensures StateOf(ws[n].file) != FailingOver
    ensures n < |es| ==> !Records(ws, n)
    ensures OnSecondary(ws[n], domain) ==> OnSecondary(ws[0], domain)
  {
    hide Step;
    if n > 0 {
      NothingUnauthorized(d, ws, es, n - 1, domain);
      UnauthorizedStep(d, ws[n - 1], es[n - 1].input, es[n - 1].crash);
    }
  }

  // ---------------------------------------------------------------- ticks that see nothing

  /** Outside FAILING_OVER, a tick that cannot read the scores changes nothing; RECOVERING does not even abort. */
  lemma {:induction false} BlindStep(d: Deployment, w: World, i: Input, crash: Crash)
    requires StateOf(w.file) != FailingOver && !StateOf(w.file).Unknown? && i.scores.ScoresError?
    ensures Step(d, w, i, crash) == w
  {
  }

  lemma {:induction false} BlindRun(d: Deployment, ws: seq<World>, es: seq<Event>, n: nat)
    requires IsRun(d, ws, es) && n <= |es|
    requires StateOf(ws[0].file) != FailingOver && !StateOf(ws[0].file).Unknown?
    requires forall k :: 0 <= k < |es| ==> es[k].input.scores.ScoresError?
    ensures ws[n] == ws[0]
  {
    hide Step;
    if n > 0 {
      BlindRun(d, ws, es, n - 1);
      BlindStep(d, ws[n - 1], es[n - 1].input, es[n - 1].crash);
    }
  }

  // ---------------------------------------------------------------- the default settings

  /** They leave room for ticks of up to five minutes, which the failback needs, and ask for no authorization. */
  lemma {:induction false} DefaultRoom(d: Deployment, delta: int)
    requires d.params == DEFAULT_PARAMS
    ensures Roomy(d, delta) <==> 0 <= delta <= 5 * MINUTE
    ensures !d.params.requireManualAuth
  {
  }

  /**
    With the settings the controller ships with: one failover a day, 65 minutes between two of them, five
    minutes between two moves, and at most 13 moves in an hour.
   */
  lemma {:induction false} DefaultGuarantees(d: Deployment, ws: seq<World>, es: seq<Event>, day: int, from: int,
                                             j: nat, k: nat)
    requires d.params == DEFAULT_PARAMS && Calendar(d) && IsRun(d, ws, es) && SaneFile(d, ws[0].file)
    requires j < k < |es|
    ensures RecordedOn(d, ws, es, |es|, day) <= 1
    ensures Records(ws, j) && Records(ws, k) ==> es[k].input.t.stamp - es[j].input.t.act >= 65 * MINUTE
    ensures Moves(ws, j) && Moves(ws, k) ==> es[k].input.t.stamp - es[j].input.t.stamp >= 5 * MINUTE
    ensures MovesWithin(ws, es, |es|, from, from + HOUR) <= 13
  {
    hide Step, SaneFile, Calendar;
    DailyLimit(d, ws, es, day);
    BoundedFlapping(d, ws, es, from, from + HOUR);
    if Records(ws, j) && Records(ws, k) {
      FailoverSpacing(d, ws, es, j, k);
    }
    if Moves(ws, j) && Moves(ws, k) {
      MovesDwell(d, ws, es, j, k);
    }
  }
}
