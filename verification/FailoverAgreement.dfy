/**
  Do the nameservers agree with the persisted state? The registrar and the file are
  updated one after the other, so not always: this module says exactly which ticks
  break the agreement, and that nothing else does.
*/
module FailoverAgreement {
  import opened FailoverModel
  import opened FailoverSafety

  function DomainOf(d: Deployment, file: File): string {
    if file.Valid? then file.snapshot.domain else d.defaults.domain
  }

  // Traffic is on the provider that the state names. FAILING_OVER names neither.
  predicate Agree(d: Deployment, w: World) {
    var ns := NsOf(w.ns, DomainOf(d, w.file));
    match StateOf(w.file)
    case Healthy => ns == PRIMARY_NS
    case Degraded => ns == PRIMARY_NS
    case FailedOver => ns == SECONDARY_NS
    case Recovering => ns == SECONDARY_NS
    case FailingOver => true
    case Unknown(_) => true
  }

  // The recovery started at most delta before the transition that recorded it.
  ghost predicate RecoveryTimed(delta: int, file: File) {
    StateOf(file) == Recovering ==>
      && file.snapshot.recoveryStart.At?
      && file.snapshot.lastTransition.At?
      && file.snapshot.lastTransition.t <= file.snapshot.recoveryStart.t + delta
  }

  // No tick takes longer than delta, and the recovery cooldown leaves room for the dwell and a tick.
  ghost predicate Roomy(d: Deployment, delta: int) {
    && d.params.Sane() && 0 <= delta
    && d.params.recoveryCooldown >= d.params.minTimeInState + delta
  }

  predicate Commits(i: Input, crash: Crash) {
    i.readable && crash.Survives? && i.save.Committed?
  }

  // The abort to DEGRADED is due: the registrar failed and the dwell is over.
  predicate Aborts(d: Deployment, s: Snapshot, i: Input) {
    && !(FailoverSent(s, i) && i.update.Applied?)
    && Since(i.t.dwell, s.lastTransition) >= d.params.minTimeInState
  }

  /**
    The ticks that break the agreement:
    a failed failover is aborted while the nameservers are already the secondary ones, or
    a failback reaches the registrar and HEALTHY is not persisted.
   */
  predicate Breaks(d: Deployment, w: World, i: Input, crash: Crash) {
    var s := Loaded(d, w.file, i.t.load);
    match s.state
    case FailingOver =>
      && Commits(i, crash) && Aborts(d, s, i)
      && ((FailoverSent(s, i) && i.update.AppliedThenError?) || NsOf(w.ns, s.domain) != PRIMARY_NS)
    case Recovering =>
      && i.readable && !crash.DiesBeforeUpdate?
      && FailbackSent(d, s, i) && !i.update.Refused?
      && !(Commits(i, crash) && i.update.Applied?)
    case _ => false
  }

  /** The failback transition is never blocked. */
  lemma {:induction false} FailbackNeverBlocked(d: Deployment, delta: int, file: File, i: Input)
    requires Roomy(d, delta) && RecoveryTimed(delta, file) && i.t.Ordered()
    requires StateOf(file) == Recovering
    requires FailbackSent(d, Loaded(d, file, i.t.load), i)
    ensures Permits(d.params, Loaded(d, file, i.t.load), Healthy, i.t)
  {
    var s := Loaded(d, file, i.t.load);
    SinceMeans(i.t.act, s.recoveryStart, d.params.recoveryCooldown);
    SinceMeans(i.t.dwell, s.lastTransition, d.params.minTimeInState);
  }

  lemma {:induction false} StepKeepsRecoveryTimed(d: Deployment, delta: int, w: World, i: Input, crash: Crash)
    requires Roomy(d, delta) && RecoveryTimed(delta, w.file)
    requires i.t.Ordered() && i.t.save - i.t.load <= delta
    ensures RecoveryTimed(delta, Step(d, w, i, crash).file)
  {
  }

  /** From an agreeing world, a tick loses the agreement exactly when it is one of the ticks above. */
  lemma {:induction false} AgreementLostExactly(d: Deployment, delta: int, w: World, i: Input, crash: Crash)
    requires Roomy(d, delta) && RecoveryTimed(delta, w.file) && i.t.Ordered()
    requires Agree(d, w)
    ensures Agree(d, Step(d, w, i, crash)) <==> !Breaks(d, w, i, crash)
  {
    var s := Loaded(d, w.file, i.t.load);
    assert DomainOf(d, w.file) == s.domain && StateOf(w.file) == s.state;
    match s.state {
      case FailingOver =>
      case Recovering =>
        if FailbackSent(d, s, i) {
          FailbackNeverBlocked(d, delta, w.file, i);
        }
      case _ =>
    }
  }

  // A run whose ticks are short and break nothing.
  ghost predicate Unbroken(d: Deployment, delta: int, ws: seq<World>, es: seq<Event>) {
    && IsRun(d, ws, es)
    && (forall k :: 0 <= k < |es| ==> es[k].input.t.save - es[k].input.t.load <= delta)
    && (forall k :: 0 <= k < |es| ==> !Breaks(d, ws[k], es[k].input, es[k].crash))
  }

  lemma {:induction false} AgreementKept(d: Deployment, delta: int, ws: seq<World>, es: seq<Event>, n: nat)
    requires Roomy(d, delta) && Unbroken(d, delta, ws, es) && n <= |es|
    requires Agree(d, ws[0]) && RecoveryTimed(delta, ws[0].file)
    ensures Agree(d, ws[n]) && RecoveryTimed(delta, ws[n].file)
  {
    hide Step, Breaks;
    if n > 0 {
      AgreementKept(d, delta, ws, es, n - 1);
      var e := es[n - 1];
      AgreementLostExactly(d, delta, ws[n - 1], e.input, e.crash);
      StepKeepsRecoveryTimed(d, delta, ws[n - 1], e.input, e.crash);
    }
  }

  // The registrar and the disk do what they are asked, and the process does not die.
  predicate FaultFree(e: Event) {
    && e.crash.Survives?
    && e.input.getNs && e.input.update.Applied?
    && e.input.save.Committed?
  }

  // The provider a snapshot fails over to is configured.
  predicate SecondaryConfigured(d: Deployment, file: File) {
    if file.Valid? then file.snapshot.secondaryId != "" else d.defaults.secondaryId != ""
  }

  lemma {:induction false} FaultFreeBreaksNothing(d: Deployment, ws: seq<World>, es: seq<Event>, n: nat)
    requires IsRun(d, ws, es) && (forall k :: 0 <= k < |es| ==> FaultFree(es[k]))
    requires SecondaryConfigured(d, ws[0].file) && n <= |es|
    ensures SecondaryConfigured(d, ws[n].file)
    ensures n < |es| ==> !Breaks(d, ws[n], es[n].input, es[n].crash)
  {
    hide Step;
    if n > 0 {
      FaultFreeBreaksNothing(d, ws, es, n - 1);
      SameProviders(d, ws[n - 1], es[n - 1].input, es[n - 1].crash);
    }
    assert n < |es| ==> FaultFree(es[n]);
  }

  // A step never changes which providers and which domain the controller looks after.
  lemma {:induction false} SameProviders(d: Deployment, w: World, i: Input, crash: Crash)
    ensures var file := Step(d, w, i, crash).file;
            && DomainOf(d, file) == DomainOf(d, w.file)
            && (SecondaryConfigured(d, file) <==> SecondaryConfigured(d, w.file))
  {
  }

  /** In a fault-free run, DNS and state agree after every tick. */
  lemma {:induction false} FaultFreeAgreement(d: Deployment, delta: int, ws: seq<World>, es: seq<Event>, n: nat)
    requires Roomy(d, delta) && IsRun(d, ws, es) && n <= |es|
    requires forall k :: 0 <= k < |es| ==> FaultFree(es[k]) && es[k].input.t.save - es[k].input.t.load <= delta
    requires SecondaryConfigured(d, ws[0].file) && Agree(d, ws[0]) && RecoveryTimed(delta, ws[0].file)
    ensures Agree(d, ws[n])
  {
    hide Step, Breaks;
    forall k: nat | k < |es| ensures !Breaks(d, ws[k], es[k].input, es[k].crash) {
      FaultFreeBreaksNothing(d, ws, es, k);
    }
    AgreementKept(d, delta, ws, es, n);
  }
}
