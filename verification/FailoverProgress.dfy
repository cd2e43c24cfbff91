/**
  Bounded progress: with ticks at most p apart, each shorter than delta, and a registrar
  and a disk that work, failover and failback complete within a fixed time.
*/
module FailoverProgress {
  import opened FailoverModel
  import opened FailoverSafety
  import opened FailoverAgreement

  // Fault-free ticks, loading at most p apart and lasting at most delta.
  ghost predicate Regular(d: Deployment, ws: seq<World>, es: seq<Event>, p: int, delta: int) {
    && IsRun(d, ws, es)
    && (forall k :: 0 <= k < |es| ==> FaultFree(es[k]) && es[k].input.readable)
    && (forall k :: 0 <= k < |es| ==> es[k].input.t.save - es[k].input.t.load <= delta)
    && (forall j, k :: 0 <= j < k < |es| && k == j + 1 ==> es[k].input.t.load - es[j].input.t.load <= p)
  }

  predicate AllGood(es: seq<Event>, primaryId: string) {
    forall k :: 0 <= k < |es| ==>
                  && es[k].input.scores.Scores?
                  && Lookup(es[k].input.scores.list, primaryId).Some?
                  && Lookup(es[k].input.scores.list, primaryId).value > RECOVERY_THRESHOLD
  }

  predicate AllBad(es: seq<Event>, primaryId: string) {
    forall k :: 0 <= k < |es| ==>
                  && es[k].input.scores.Scores?
                  && Lookup(es[k].input.scores.list, primaryId).Some?
                  && Lookup(es[k].input.scores.list, primaryId).value < DEGRADE_THRESHOLD
  }

  // ---------------------------------------------------------------- failback

  // The state was entered at c, and nothing but time stands in the way of leaving it.
  predicate InState(w: World, state: State, c: int, primaryId: string) {
    && w.file.Valid?
    && w.file.snapshot.state == state
    && w.file.snapshot.lastTransition == At(c)
    && w.file.snapshot.primaryId == primaryId
  }

  lemma {:induction false} RecoveryTick(d: Deployment, w: World, i: Input, c: int, id: string)
    requires d.params.Sane() && i.t.Ordered() && i.readable && i.save.Committed?
    requires InState(w, FailedOver, c, id)
    requires i.scores.Scores? && Lookup(i.scores.list, id).Some? && Lookup(i.scores.list, id).value > RECOVERY_THRESHOLD
    ensures var w' := Step(d, w, i, Survives);
            if i.t.dwell - c >= d.params.minTimeInState
            then InState(w', Recovering, i.t.stamp, id) && w'.file.snapshot.recoveryStart == At(i.t.act)
            else w'.file == w.file
  {
    SinceMeans(i.t.dwell, At(c), d.params.minTimeInState);
  }

  lemma {:induction false} LeavesFailedOver(d: Deployment, ws: seq<World>, es: seq<Event>, p: int, delta: int,
                                            c: int, id: string, n: nat) returns (k: nat)
    requires d.params.Sane() && Regular(d, ws, es, p, delta) && AllGood(es, id)
    requires n < |es| && InState(ws[n], FailedOver, c, id)
    requires es[n].input.t.load <= c + d.params.minTimeInState + p
    requires es[|es| - 1].input.t.load >= c + d.params.minTimeInState
    ensures n <= k < |es| && es[k].input.t.load <= c + d.params.minTimeInState + p
    ensures InState(ws[k + 1], Recovering, es[k].input.t.stamp, id)
    ensures ws[k + 1].file.snapshot.recoveryStart == At(es[k].input.t.act)
    decreases |es| - n
  {
    hide Step, Since;
    var i := es[n].input;
    assert FaultFree(es[n]);
    RecoveryTick(d, ws[n], i, c, id);
    if i.t.dwell - c >= d.params.minTimeInState {
      k := n;
    } else {
      assert n + 1 < |es| && es[n + 1].input.t.load - i.t.load <= p;
      k := LeavesFailedOver(d, ws, es, p, delta, c, id, n + 1);
    }
  }

  lemma {:induction false} FailbackTick(d: Deployment, w: World, i: Input, c: int, r: int, id: string, delta: int)
    requires Roomy(d, delta) && i.t.Ordered() && i.readable && i.save.Committed? && i.update.Applied?
    requires InState(w, Recovering, c, id) && w.file.snapshot.recoveryStart == At(r) && c <= r + delta && id != ""
    requires i.scores.Scores? && Lookup(i.scores.list, id).Some? && Lookup(i.scores.list, id).value > RECOVERY_THRESHOLD
    ensures var w' := Step(d, w, i, Survives);
            if i.t.act - r >= d.params.recoveryCooldown
            then InState(w', Healthy, i.t.stamp, id) && NsOf(w'.ns, w.file.snapshot.domain) == PRIMARY_NS
            else w' == w
  {
    SinceMeans(i.t.act, At(r), d.params.recoveryCooldown);
    SinceMeans(i.t.dwell, At(c), d.params.minTimeInState);
  }

  lemma {:induction false} LeavesRecovering(d: Deployment, ws: seq<World>, es: seq<Event>, p: int, delta: int,
                                            c: int, r: int, id: string, n: nat) returns (k: nat)
    requires Roomy(d, delta) && Regular(d, ws, es, p, delta) && AllGood(es, id) && id != ""
    requires n < |es| && InState(ws[n], Recovering, c, id)
    requires ws[n].file.snapshot.recoveryStart == At(r) && c <= r + delta
    requires es[n].input.t.load <= r + d.params.recoveryCooldown + p
    requires es[|es| - 1].input.t.load >= r + d.params.recoveryCooldown
    ensures n <= k < |es| && es[k].input.t.load <= r + d.params.recoveryCooldown + p
    ensures InState(ws[k + 1], Healthy, es[k].input.t.stamp, id)
    ensures NsOf(ws[k + 1].ns, ws[n].file.snapshot.domain) == PRIMARY_NS
    decreases |es| - n
  {
    hide Step, Since;
    var i := es[n].input;
    assert FaultFree(es[n]);
    FailbackTick(d, ws[n], i, c, r, id, delta);
    if i.t.act - r >= d.params.recoveryCooldown {
      k := n;
    } else {
      assert n + 1 < |es| && es[n + 1].input.t.load - i.t.load <= p;
      k := LeavesRecovering(d, ws, es, p, delta, c, r, id, n + 1);
    }
  }

  /**
    FAILED_OVER since c, and a primary that is well: the controller is HEALTHY again, on the primary
    nameservers, by c + MinTimeInState + RecoveryCooldown + 2p + 2 delta.
   */
  lemma {:induction false} FailbackProgress(d: Deployment, ws: seq<World>, es: seq<Event>, p: int, delta: int,
                                            c: int, id: string)
    returns (k: nat)
    requires Roomy(d, delta) && 0 <= p && Regular(d, ws, es, p, delta) && AllGood(es, id) && id != ""
    requires |es| > 0 && InState(ws[0], FailedOver, c, id) && es[0].input.t.load <= c + p
    requires es[|es| - 1].input.t.load > c + d.params.minTimeInState + d.params.recoveryCooldown + p + delta
    ensures k < |es| && InState(ws[k + 1], Healthy, es[k].input.t.stamp, id)
    ensures NsOf(ws[k + 1].ns, DomainOf(d, ws[0].file)) == PRIMARY_NS
    ensures es[k].input.t.stamp <= c + d.params.minTimeInState + d.params.recoveryCooldown + 2 * p + 2 * delta
  {
    hide Step, Since;
    var k1 := LeavesFailedOver(d, ws, es, p, delta, c, id, 0);
    var t := es[k1].input.t;
    DomainKept(d, ws, es, k1 + 1);
    assert k1 + 1 < |es| && es[k1 + 1].input.t.load - t.load <= p;
    k := LeavesRecovering(d, ws, es, p, delta, t.stamp, t.act, id, k1 + 1);
  }

  lemma {:induction false} DomainKept(d: Deployment, ws: seq<World>, es: seq<Event>, n: nat)
    requires IsRun(d, ws, es) && n <= |es|
    ensures DomainOf(d, ws[n].file) == DomainOf(d, ws[0].file)
  {
    hide Step, Since;
    if n > 0 {
      DomainKept(d, ws, es, n - 1);
      SameProviders(d, ws[n - 1], es[n - 1].input, es[n - 1].crash);
    }
  }

  // ---------------------------------------------------------------- failover

  // The daily budget, the cooldown and the authorization would let a failover start from c + MinTimeInState on.
  predicate MayFailOver(d: Deployment, s: Snapshot, c: int) {
    && 0 <= s.dailyCount < d.params.maxDailyFailovers
    && !d.params.requireManualAuth
    && s.secondaryId != ""
    && (s.lastFailover.At? ==> s.lastFailover.t + d.params.failoverCooldown <= c + d.params.minTimeInState)
  }

  lemma {:induction false} DegradedTick(d: Deployment, w: World, i: Input, c: int, id: string)
    requires d.params.Sane() && i.t.Ordered() && i.readable && i.save.Committed?
    requires InState(w, Degraded, c, id) && MayFailOver(d, w.file.snapshot, c) && w.file.snapshot.degradedCount >= 1
    requires i.scores.Scores? && Lookup(i.scores.list, id).Some? && Lookup(i.scores.list, id).value < DEGRADE_THRESHOLD
    ensures var w' := Step(d, w, i, Survives);
            if w.file.snapshot.degradedCount == 1
            then InState(w', Degraded, c, id) && MayFailOver(d, w'.file.snapshot, c)
                 && w'.file.snapshot.degradedCount == 2
            else if i.t.dwell - c >= d.params.minTimeInState
            then InState(w', FailingOver, i.t.stamp, id) && w'.file.snapshot.secondaryId != ""
            else w' == w
  {
    SinceMeans(i.t.dwell, At(c), d.params.minTimeInState);
    SinceMeans(i.t.cool, w.file.snapshot.lastFailover, d.params.failoverCooldown);
  }

  lemma {:induction false} LeavesDegraded(d: Deployment, ws: seq<World>, es: seq<Event>, p: int, delta: int,
                                          c: int, id: string, n: nat) returns (k: nat)
    requires d.params.Sane() && Regular(d, ws, es, p, delta) && AllBad(es, id)
    requires n < |es| && InState(ws[n], Degraded, c, id)
    requires MayFailOver(d, ws[n].file.snapshot, c) && ws[n].file.snapshot.degradedCount >= 1
    requires es[n].input.t.load <= c + d.params.minTimeInState + p
    requires ws[n].file.snapshot.degradedCount == 1 ==> es[n].input.t.load <= c + d.params.minTimeInState
    requires es[|es| - 1].input.t.load > c + d.params.minTimeInState
    ensures n <= k < |es| && es[k].input.t.load <= c + d.params.minTimeInState + p
    ensures InState(ws[k + 1], FailingOver, es[k].input.t.stamp, id) && ws[k + 1].file.snapshot.secondaryId != ""
    decreases |es| - n
  {
    hide Step, Since;
    var i := es[n].input;
    assert FaultFree(es[n]);
    DegradedTick(d, ws[n], i, c, id);
    if ws[n].file.snapshot.degradedCount != 1 && i.t.dwell - c >= d.params.minTimeInState {
      k := n;
    } else {
      assert n + 1 < |es| && es[n + 1].input.t.load - i.t.load <= p;
      k := LeavesDegraded(d, ws, es, p, delta, c, id, n + 1);
    }
  }

  lemma {:induction false} FailoverTick(d: Deployment, w: World, i: Input, c: int, id: string)
    requires d.params.Sane() && i.t.Ordered() && i.readable && i.save.Committed? && i.getNs && i.update.Applied?
    requires InState(w, FailingOver, c, id) && w.file.snapshot.secondaryId != ""
    ensures var w' := Step(d, w, i, Survives);
            && NsOf(w'.ns, w.file.snapshot.domain) == SECONDARY_NS
            && (if i.t.dwell - c >= d.params.minTimeInState
                then InState(w', FailedOver, i.t.stamp, id) else w'.file == w.file)
  {
    SinceMeans(i.t.dwell, At(c), d.params.minTimeInState);
  }

  lemma {:induction false} LeavesFailingOver(d: Deployment, ws: seq<World>, es: seq<Event>, p: int, delta: int,
                                             c: int, id: string, n: nat) returns (k: nat)
    requires d.params.Sane() && Regular(d, ws, es, p, delta)
    requires n < |es| && InState(ws[n], FailingOver, c, id) && ws[n].file.snapshot.secondaryId != ""
    requires es[n].input.t.load <= c + d.params.minTimeInState + p
    requires es[|es| - 1].input.t.load >= c + d.params.minTimeInState
    ensures n <= k < |es| && es[k].input.t.load <= c + d.params.minTimeInState + p
    ensures InState(ws[k + 1], FailedOver, es[k].input.t.stamp, id)
    ensures forall j :: n < j <= k + 1 ==> NsOf(ws[j].ns, ws[n].file.snapshot.domain) == SECONDARY_NS
    decreases |es| - n
  {
    hide Step, Since;
    var i := es[n].input;
    assert FaultFree(es[n]);
    FailoverTick(d, ws[n], i, c, id);
    if i.t.dwell - c >= d.params.minTimeInState {
      k := n;
    } else {
      assert n + 1 < |es| && es[n + 1].input.t.load - i.t.load <= p;
      k := LeavesFailingOver(d, ws, es, p, delta, c, id, n + 1);
    }
  }

  /**
    DEGRADED since c, with a failover allowed and a primary that stays bad: FAILING_OVER is persisted at k1,
    traffic is on the secondary one tick later, by c + MinTimeInState + 2p + delta, and from then on;
    and FAILED_OVER is persisted by c + 2 MinTimeInState + 2p + 2 delta.
   */
  lemma {:induction false} FailoverProgress(d: Deployment, ws: seq<World>, es: seq<Event>, p: int, delta: int,
                                            c: int, id: string)
    returns (k1: nat, k2: nat)
    requires d.params.Sane() && 0 <= p <= d.params.minTimeInState && 0 <= delta
    requires Regular(d, ws, es, p, delta) && AllBad(es, id)
    requires |es| > 0 && InState(ws[0], Degraded, c, id) && es[0].input.t.load <= c + p
    requires MayFailOver(d, ws[0].file.snapshot, c) && ws[0].file.snapshot.degradedCount >= 1
    requires es[|es| - 1].input.t.load > c + 2 * d.params.minTimeInState + p + delta
    ensures k1 < k2 < |es| && InState(ws[k1 + 1], FailingOver, es[k1].input.t.stamp, id)
    ensures es[k1 + 1].input.t.save <= c + d.params.minTimeInState + 2 * p + delta
    ensures forall j :: k1 + 1 < j <= k2 + 1 ==> NsOf(ws[j].ns, DomainOf(d, ws[0].file)) == SECONDARY_NS
    ensures InState(ws[k2 + 1], FailedOver, es[k2].input.t.stamp, id)
    ensures es[k2].input.t.stamp <= c + 2 * d.params.minTimeInState + 2 * p + 2 * delta
  {
    hide Step, Since;
    k1 := LeavesDegraded(d, ws, es, p, delta, c, id, 0);
    var t := es[k1].input.t;
    DomainKept(d, ws, es, k1 + 1);
    assert k1 + 1 < |es| && es[k1 + 1].input.t.load - t.load <= p;
    k2 := LeavesFailingOver(d, ws, es, p, delta, t.stamp, id, k1 + 1);
  }
}
