/**
  Where the controller does not do what its own comments say, with runs that show it,
  and exactly when it does.
*/
module FailoverFindings {
  import opened FailoverModel
  import opened FailoverSafety
  import opened FailoverAgreement

  // ---------------------------------------------------------------- no usable state file

  /**
    Without a usable file, a tick changes something exactly when it sees a bad primary, takes at least
    MinTimeInState between loading and validating, and its save succeeds.
   */
  lemma {:induction false} UnusableFileExactly(d: Deployment, w: World, i: Input, crash: Crash)
    requires !w.file.Valid? && d.params.Sane()
    ensures var score := PrimaryScore(DefaultState(d, i.t.load), i.scores);
            Step(d, w, i, crash) != w <==>
              && Commits(i, crash)
              && score.Some? && score.value < DEGRADE_THRESHOLD
              && i.t.dwell - i.t.load >= d.params.minTimeInState
  {
    SinceMeans(i.t.dwell, At(i.t.load), d.params.minTimeInState);
  }

  /** So with ticks shorter than that, a controller started without a state file never does anything. */
  lemma {:induction false} InertWithoutFile(d: Deployment, ws: seq<World>, es: seq<Event>, n: nat)
    requires d.params.Sane() && IsRun(d, ws, es) && n <= |es| && !ws[0].file.Valid?
    requires forall k :: 0 <= k < |es| ==> es[k].input.t.dwell - es[k].input.t.load < d.params.minTimeInState
    ensures ws[n] == ws[0]
  {
    hide Step;
    if n > 0 {
      InertWithoutFile(d, ws, es, n - 1);
      UnusableFileExactly(d, ws[n - 1], es[n - 1].input, es[n - 1].crash);
    }
  }

  /** The reset of an unknown state is always rejected: the controller never leaves it and does nothing in it. */
  lemma {:induction false} UnknownStateIsForever(d: Deployment, ws: seq<World>, es: seq<Event>, n: nat)
    requires IsRun(d, ws, es) && n <= |es| && StateOf(ws[0].file).Unknown?
    ensures ws[n] == ws[0]
  {
    if n > 0 {
      UnknownStateIsForever(d, ws, es, n - 1);
      assert es[n - 1].input.t.Ordered();
    }
  }

  // ---------------------------------------------------------------- consecutive checks, stable recovery

  predicate SeesWell(d: Deployment, w: World, i: Input) {
    var score := PrimaryScore(Loaded(d, w.file, i.t.load), i.scores);
    score.Some? && score.value >= DEGRADE_THRESHOLD
  }

  // Time in the state, at the check of the dwell.
  predicate DwellOver(d: Deployment, file: File, i: Input) {
    Since(i.t.dwell, Loaded(d, file, i.t.load).lastTransition) >= d.params.minTimeInState
  }

  /** A good check resets the count of bad ones exactly when the dwell is over and the save succeeds. */
  lemma {:induction false} GoodCheckResetsExactly(d: Deployment, w: World, i: Input, crash: Crash)
    requires StateOf(w.file) == Degraded && SeesWell(d, w, i)
    ensures StateOf(Step(d, w, i, crash).file) == Healthy <==> Commits(i, crash) && DwellOver(d, w.file, i)
    ensures StateOf(Step(d, w, i, crash).file) != Healthy ==> Step(d, w, i, crash) == w
  {
  }

  /** A recovering primary that turns bad stops the recovery exactly when the dwell is over and the save succeeds. */
  lemma {:induction false} BadCheckAbortsExactly(d: Deployment, w: World, i: Input, crash: Crash)
    requires StateOf(w.file) == Recovering && i.scores.Scores? && !SeesWell(d, w, i)
    ensures StateOf(Step(d, w, i, crash).file) == FailedOver <==> Commits(i, crash) && DwellOver(d, w.file, i)
    ensures StateOf(Step(d, w, i, crash).file) != FailedOver ==> Step(d, w, i, crash) == w
  {
  }

  /**
    Since the state was last HEALTHY, every good check on the way to FAILING_OVER fell inside a minimum
    time or lost its save: outside of those, the bad checks were consecutive.
   */
  lemma {:induction false} ConsecutiveUnlessLost(d: Deployment, ws: seq<World>, es: seq<Event>, from: nat, k: nat,
                                                 j: nat)
    requires IsRun(d, ws, es) && from < j < k < |es|
    requires forall n :: from < n <= k ==> StateOf(ws[n].file) != Healthy
    requires StateOf(ws[j].file) == Degraded && SeesWell(d, ws[j], es[j].input)
    ensures !Commits(es[j].input, es[j].crash) || !DwellOver(d, ws[j].file, es[j].input)
  {
    hide Step;
    GoodCheckResetsExactly(d, ws[j], es[j].input, es[j].crash);
    assert StateOf(ws[j + 1].file) != Healthy;
  }

  // While the state stays RECOVERING, every bad check falls inside the minimum time or loses its save.
  lemma {:induction false} StillRecovering(d: Deployment, ws: seq<World>, es: seq<Event>, from: nat, k: nat, j: nat)
    requires IsRun(d, ws, es) && from <= j < k < |es|
    requires forall n :: from <= n <= k ==> StateOf(ws[n].file) == Recovering
    requires es[j].input.scores.Scores? && !SeesWell(d, ws[j], es[j].input)
    ensures !Commits(es[j].input, es[j].crash) || !DwellOver(d, ws[j].file, es[j].input)
  {
    hide Step;
    BadCheckAbortsExactly(d, ws[j], es[j].input, es[j].crash);
    assert StateOf(ws[j + 1].file) == Recovering;
  }

  // Event e enters RECOVERING, event k fails back, and the state is left by no event in between.
  ghost predicate FailsBack(ws: seq<World>, e: nat, k: nat)
    requires e < k && k + 1 < |ws|
  {
    && Moves(ws, e) && StateOf(ws[e + 1].file) == Recovering
    && (forall n: nat :: e < n < k ==> !Moves(ws, n))
    && Moves(ws, k) && StateOf(ws[k + 1].file) == Healthy
  }

  // A step in RECOVERING keeps the file or leaves the state; one that enters it stamps its start.
  lemma {:induction false} RecoveryStep(d: Deployment, w: World, i: Input, crash: Crash)
    ensures var file := Step(d, w, i, crash).file;
            && (StateOf(w.file) == Recovering && StateOf(file) == Recovering ==> file == w.file)
            && (StateOf(w.file) == Recovering && StateOf(file) == Healthy ==>
                  Since(i.t.act, w.file.snapshot.recoveryStart) >= d.params.recoveryCooldown)
            && (StateOf(w.file) != Recovering && StateOf(file) == Recovering ==>
                  file.snapshot.recoveryStart == At(i.t.act))
  {
  }

  lemma {:induction false} RecoveringBetween(d: Deployment, ws: seq<World>, es: seq<Event>, e: nat, k: nat, n: nat)
    requires IsRun(d, ws, es) && e < n <= k < |es| && FailsBack(ws, e, k)
    ensures StateOf(ws[n].file) == Recovering && ws[n].file.snapshot.recoveryStart == At(es[e].input.t.act)
    decreases n
  {
    hide Step;
    if n == e + 1 {
      RecoveryStep(d, ws[e], es[e].input, es[e].crash);
    } else {
      RecoveringBetween(d, ws, es, e, k, n - 1);
      assert !Moves(ws, n - 1);
      RecoveryStep(d, ws[n - 1], es[n - 1].input, es[n - 1].crash);
    }
  }

  /**
    A persisted failback comes a whole cooldown after the recovery began, and every bad check between
    the two fell inside the minimum time or lost its save: otherwise the primary was stable.
   */
  lemma {:induction false} StableUnlessLost(d: Deployment, ws: seq<World>, es: seq<Event>, e: nat, k: nat, j: nat)
    requires d.params.Sane() && IsRun(d, ws, es) && e < j < k < |es| && FailsBack(ws, e, k)
    requires es[j].input.scores.Scores? && !SeesWell(d, ws[j], es[j].input)
    ensures !Commits(es[j].input, es[j].crash) || !DwellOver(d, ws[j].file, es[j].input)
    ensures es[k].input.t.act - es[e].input.t.act >= d.params.recoveryCooldown
  {
    hide Step, SeesWell, Commits, DwellOver;
    forall n | e < n <= k ensures StateOf(ws[n].file) == Recovering {
      RecoveringBetween(d, ws, es, e, k, n);
    }
    StillRecovering(d, ws, es, e + 1, k, j);
    RecoveringBetween(d, ws, es, e, k, k);
    RecoveryStep(d, ws[k], es[k].input, es[k].crash);
    SinceMeans(es[k].input.t.act, At(es[e].input.t.act), d.params.recoveryCooldown);
  }

  // ---------------------------------------------------------------- building runs

  const DAY := 24 * HOUR

  // A deployment with the default parameters and days of 24 hours.
  ghost function Example(): Deployment {
    Deployment(DEFAULT_PARAMS, Defaults("p", "s", "x"), t => t / DAY, t => t / DAY)
  }

  lemma {:induction false} ExampleCalendar()
    ensures Calendar(Example()) && DEFAULT_PARAMS.Sane()
  {
  }

  // A world of the example, with the fields that the runs below change.
  function Ex(state: State, since: int, checks: int, saved: Stamp, ns: map<string, Nameservers>): World {
    World(Valid(Snapshot(state, "p", "s", "x", At(since), Zero, 0, 0, checks, Zero, saved)), ns)
  }

  // A tick that takes no time; the primary has the score.
  function TickAt(t: int, score: real): Event {
    Event(Input(Readings(t, t, t, t, t, t), true, Scores([ProviderHealth("p", score)]), true, Applied, Committed),
          Survives)
  }

  ghost predicate InOrder(es: seq<Event>) {
    && (forall k :: 0 <= k < |es| ==> es[k].input.t.Ordered())
    && (forall j, k :: 0 <= j < k < |es| ==> es[j].input.t.save <= es[k].input.t.load)
  }

  // The worlds are chained by the events.
  ghost predicate Chained(d: Deployment, ws: seq<World>, es: seq<Event>) {
    |ws| == |es| + 1 && forall k {:trigger es[k]} :: 0 <= k < |es| ==> Leads(d, ws[k], es[k], ws[k + 1])
  }

  ghost predicate Leads(d: Deployment, w: World, e: Event, w': World) {
    w' == Step(d, w, e.input, e.crash)
  }

  // ---------------------------------------------------------------- stranded on the secondary

  // While healthy, a good check changes nothing, whatever the nameservers are.
  lemma {:induction false} HealthyStays(d: Deployment, ws: seq<World>, es: seq<Event>, n: nat)
    requires IsRun(d, ws, es) && n <= |es| && StateOf(ws[0].file) == Healthy && ws[0].file.Valid?
    requires forall k :: 0 <= k < |es| ==> SeesWell(d, ws[k], es[k].input)
    ensures ws[n] == ws[0]
  {
    if n > 0 {
      HealthyStays(d, ws, es, n - 1);
      assert SeesWell(d, ws[n - 1], es[n - 1].input);
    }
  }

  const MOVED: map<string, Nameservers> := map["x" := SECONDARY_NS]

  lemma {:induction false} ExampleDegrades()
    ensures Leads(Example(), Ex(Healthy, 0, 0, Zero, map[]), TickAt(10 * MINUTE, 0.1),
                  Ex(Degraded, 10 * MINUTE, 1, At(10 * MINUTE), map[]))
    ensures Leads(Example(), Ex(Degraded, 10 * MINUTE, 1, At(10 * MINUTE), map[]), TickAt(11 * MINUTE, 0.1),
                  Ex(Degraded, 10 * MINUTE, 2, At(11 * MINUTE), map[]))
    ensures Leads(Example(), Ex(Degraded, 10 * MINUTE, 2, At(11 * MINUTE), map[]), TickAt(15 * MINUTE, 0.1),
                  Ex(FailingOver, 15 * MINUTE, 3, At(15 * MINUTE), map[]))
  {
  }

  // The registrar does not answer when asked for the current nameservers.
  function MuteTickAt(t: int, score: real): Event {
    TickAt(t, score).(input := TickAt(t, score).input.(getNs := false))
  }

  lemma {:induction false} ExampleStrands()
    ensures Leads(Example(), Ex(FailingOver, 15 * MINUTE, 3, At(15 * MINUTE), map[]), TickAt(16 * MINUTE, 0.1),
                  Ex(FailingOver, 15 * MINUTE, 3, At(15 * MINUTE), MOVED))
    ensures Leads(Example(), Ex(FailingOver, 15 * MINUTE, 3, At(15 * MINUTE), MOVED), MuteTickAt(20 * MINUTE, 0.1),
                  Ex(Degraded, 20 * MINUTE, 3, At(20 * MINUTE), MOVED))
    ensures Leads(Example(), Ex(Degraded, 20 * MINUTE, 3, At(20 * MINUTE), MOVED), TickAt(25 * MINUTE, 0.9),
                  Ex(Healthy, 25 * MINUTE, 0, At(25 * MINUTE), MOVED))
  {
  }

  lemma {:induction false} ChainedIsRun(d: Deployment, ws: seq<World>, es: seq<Event>)
    requires Chained(d, ws, es) && InOrder(es)
    ensures IsRun(d, ws, es)
  {
    hide Step;
  }

  /**
    FAILING_OVER sends its update on every tick until the minimum time has passed. One registrar error
    after that aborts to DEGRADED, and a recovered primary leads back to HEALTHY, with the traffic still on
    the secondary; as long as the primary stays well (HealthyStays) nothing moves it back.
   */
  lemma {:induction false} StrandedOnSecondary() returns (ws: seq<World>, es: seq<Event>)
    ensures IsRun(Example(), ws, es) && |es| == 6
    ensures StateOf(ws[0].file) == Healthy && Agree(Example(), ws[0]) && SaneFile(Example(), ws[0].file)
    ensures forall k :: 0 <= k < 6 ==> es[k].crash.Survives? && es[k].input.save.Committed?
    ensures StateOf(ws[6].file) == Healthy && NsOf(ws[6].ns, "x") == SECONDARY_NS
    ensures !Agree(Example(), ws[6])
  {
    hide Step;
    ws := [Ex(Healthy, 0, 0, Zero, map[]),
           Ex(Degraded, 10 * MINUTE, 1, At(10 * MINUTE), map[]),
           Ex(Degraded, 10 * MINUTE, 2, At(11 * MINUTE), map[]),
           Ex(FailingOver, 15 * MINUTE, 3, At(15 * MINUTE), map[]),
           Ex(FailingOver, 15 * MINUTE, 3, At(15 * MINUTE), MOVED),
           Ex(Degraded, 20 * MINUTE, 3, At(20 * MINUTE), MOVED),
           Ex(Healthy, 25 * MINUTE, 0, At(25 * MINUTE), MOVED)];
    es := [TickAt(10 * MINUTE, 0.1), TickAt(11 * MINUTE, 0.1), TickAt(15 * MINUTE, 0.1), TickAt(16 * MINUTE, 0.1),
           MuteTickAt(20 * MINUTE, 0.1), TickAt(25 * MINUTE, 0.9)];
    assert Chained(Example(), ws, es) by {
      ExampleDegrades();
      ExampleStrands();
    }
    ChainedIsRun(Example(), ws, es);
  }

  // ---------------------------------------------------------------- three checks that are not consecutive

  lemma {:induction false} ExampleForgives()
    ensures Leads(Example(), Ex(Degraded, 10 * MINUTE, 2, At(11 * MINUTE), map[]), TickAt(12 * MINUTE, 0.9),
                  Ex(Degraded, 10 * MINUTE, 2, At(11 * MINUTE), map[]))
  {
  }

  /** Bad, bad, well, bad: FAILING_OVER is entered although the checks were not consecutive. */
  lemma {:induction false} NotConsecutive() returns (ws: seq<World>, es: seq<Event>)
    ensures IsRun(Example(), ws, es) && |es| == 4
    ensures StateOf(ws[0].file) == Healthy && StateOf(ws[4].file) == FailingOver
    ensures SeesWell(Example(), ws[2], es[2].input)
    ensures forall k :: 0 <= k < 4 ==> FaultFree(es[k])
  {
    hide Step;
    ws := [Ex(Healthy, 0, 0, Zero, map[]),
           Ex(Degraded, 10 * MINUTE, 1, At(10 * MINUTE), map[]),
           Ex(Degraded, 10 * MINUTE, 2, At(11 * MINUTE), map[]),
           Ex(Degraded, 10 * MINUTE, 2, At(11 * MINUTE), map[]),
           Ex(FailingOver, 15 * MINUTE, 3, At(15 * MINUTE), map[])];
    es := [TickAt(10 * MINUTE, 0.1), TickAt(11 * MINUTE, 0.1), TickAt(12 * MINUTE, 0.9), TickAt(15 * MINUTE, 0.1)];
    assert Chained(Example(), ws, es) by {
      ExampleDegrades();
      ExampleForgives();
    }
    ChainedIsRun(Example(), ws, es);
  }

  // ---------------------------------------------------------------- the example after midnight

  // The example some minutes after the first midnight.
  function Late(state: State, since: int, failover: Stamp, count: int, day: int, checks: int, recovery: Stamp,
                ns: map<string, Nameservers>): World {
    World(Valid(Snapshot(state, "p", "s", "x", At(since), failover, count, day, checks, recovery, At(since))), ns)
  }

  const MIDNIGHT := DAY + SECOND
  const BACK: map<string, Nameservers> := map["x" := PRIMARY_NS]

  function LateTick(minutes: int, score: real): Event {
    TickAt(DAY + minutes * MINUTE, score)
  }

  // Loads the state a second before midnight and does everything else a second after it.
  function MidnightTick(): Event {
    var e := TickAt(MIDNIGHT, 0.1);
    e.(input := e.input.(t := e.input.t.(load := DAY - SECOND)))
  }

  // ---------------------------------------------------------------- recoveries

  // A tick whose save fails.
  function UnsavedTick(minutes: int, score: real): Event {
    var e := LateTick(minutes, score);
    e.(input := e.input.(save := WriteFails))
  }

  function LateFailedOver(): World { Late(FailedOver, MIDNIGHT, At(MIDNIGHT), 1, 1, 0, Zero, MOVED) }

  // Ten minutes later, on one provider or the other.
  function LateRecovering(ns: map<string, Nameservers>): World {
    Late(Recovering, DAY + 10 * MINUTE, At(MIDNIGHT), 1, 1, 0, At(DAY + 10 * MINUTE), ns)
  }

  lemma {:induction false} LateRecovers()
    ensures Leads(Example(), LateFailedOver(), LateTick(10, 0.9), LateRecovering(MOVED))
    // A bad check inside the minimum time.
    ensures Leads(Example(), LateRecovering(MOVED), LateTick(12, 0.1), LateRecovering(MOVED))
  {
  }

  lemma {:induction false} LateFailsBack()
    ensures Leads(Example(), LateRecovering(MOVED), LateTick(30, 0.9),
                  Late(Healthy, DAY + 30 * MINUTE, At(MIDNIGHT), 1, 1, 0, Zero, BACK))
  {
  }

  lemma {:induction false} LateLosesItsSave()
    ensures Leads(Example(), LateRecovering(MOVED), UnsavedTick(30, 0.9), LateRecovering(BACK))
    ensures Leads(Example(), LateRecovering(BACK), LateTick(31, 0.1),
                  Late(FailedOver, DAY + 31 * MINUTE, At(MIDNIGHT), 1, 1, 0, Zero, BACK))
  {
  }

  /** Well, bad, well: a fault-free failback although the primary was not stable for the cooldown. */
  lemma {:induction false} NotStable() returns (ws: seq<World>, es: seq<Event>)
    ensures IsRun(Example(), ws, es) && |es| == 3 && FailsBack(ws, 0, 2)
    ensures es[1].input.scores.Scores? && !SeesWell(Example(), ws[1], es[1].input)
    ensures forall k :: 0 <= k < 3 ==> FaultFree(es[k])
  {
    hide Step;
    ws := [LateFailedOver(), LateRecovering(MOVED), LateRecovering(MOVED),
           Late(Healthy, DAY + 30 * MINUTE, At(MIDNIGHT), 1, 1, 0, Zero, BACK)];
    es := [LateTick(10, 0.9), LateTick(12, 0.1), LateTick(30, 0.9)];
    assert Chained(Example(), ws, es) by {
      LateRecovers();
      LateFailsBack();
    }
    ChainedIsRun(Example(), ws, es);
  }

  /**
    The failback reaches the registrar, its save fails, and the primary turns bad before the next tick:
    FAILED_OVER is persisted with the traffic on the bad primary.
   */
  lemma {:induction false} StrandedOnPrimary() returns (ws: seq<World>, es: seq<Event>)
    ensures IsRun(Example(), ws, es) && |es| == 3
    ensures Agree(Example(), ws[0]) && SaneFile(Example(), ws[0].file)
    ensures forall k :: 0 <= k < 3 ==> es[k].crash.Survives? && es[k].input.getNs && es[k].input.update.Applied?
    ensures es[0].input.save.Committed? && !es[1].input.save.Committed? && es[2].input.save.Committed?
    ensures StateOf(ws[3].file) == FailedOver && NsOf(ws[3].ns, "x") == PRIMARY_NS
    ensures !SeesWell(Example(), ws[2], es[2].input) && !Agree(Example(), ws[3])
  {
    hide Step;
    ws := [LateFailedOver(), LateRecovering(MOVED), LateRecovering(BACK),
           Late(FailedOver, DAY + 31 * MINUTE, At(MIDNIGHT), 1, 1, 0, Zero, BACK)];
    es := [LateTick(10, 0.9), UnsavedTick(30, 0.9), LateTick(31, 0.1)];
    assert Chained(Example(), ws, es) by {
      LateRecovers();
      LateLosesItsSave();
    }
    ChainedIsRun(Example(), ws, es);
  }

  predicate SeesRecovered(d: Deployment, w: World, i: Input) {
    var score := PrimaryScore(Loaded(d, w.file, i.t.load), i.scores);
    score.Some? && score.value > RECOVERY_THRESHOLD
  }

  /** In FAILED_OVER nothing is changed while the primary is not well, whatever the nameservers are. */
  lemma {:induction false} FailedOverStays(d: Deployment, ws: seq<World>, es: seq<Event>, n: nat)
    requires IsRun(d, ws, es) && n <= |es| && StateOf(ws[0].file) == FailedOver
    requires forall k :: 0 <= k < |es| ==> !SeesRecovered(d, ws[k], es[k].input)
    ensures ws[n] == ws[0]
  {
    hide Step, SeesRecovered;
    if n > 0 {
      FailedOverStays(d, ws, es, n - 1);
      assert !SeesRecovered(d, ws[n - 1], es[n - 1].input);
      FailedOverStep(d, ws[n - 1], es[n - 1].input, es[n - 1].crash);
    }
  }

  lemma {:induction false} FailedOverStep(d: Deployment, w: World, i: Input, crash: Crash)
    requires StateOf(w.file) == FailedOver && !SeesRecovered(d, w, i)
    ensures Step(d, w, i, crash) == w
  {
  }

  // ---------------------------------------------------------------- two failovers on one day

  lemma {:induction false} LateFailsOver()
    ensures Leads(Example(), Late(FailingOver, DAY - 10 * MINUTE, Zero, 0, 0, 3, Zero, map[]), MidnightTick(),
                  Late(FailedOver, MIDNIGHT, At(MIDNIGHT), 1, 0, 0, Zero, MOVED))
  {
  }

  lemma {:induction false} LateComesBack()
    ensures Leads(Example(), Late(FailedOver, MIDNIGHT, At(MIDNIGHT), 1, 0, 0, Zero, MOVED), LateTick(10, 0.9),
                  Late(Recovering, DAY + 10 * MINUTE, At(MIDNIGHT), 0, 1, 0, At(DAY + 10 * MINUTE), MOVED))
    ensures Leads(Example(), Late(Recovering, DAY + 10 * MINUTE, At(MIDNIGHT), 0, 1, 0, At(DAY + 10 * MINUTE), MOVED),
                  LateTick(30, 0.9), Late(Healthy, DAY + 30 * MINUTE, At(MIDNIGHT), 0, 1, 0, Zero, BACK))
  {
  }

  lemma {:induction false} LateFailsOverAgain()
    ensures Leads(Example(), Late(Healthy, DAY + 30 * MINUTE, At(MIDNIGHT), 0, 1, 0, Zero, BACK), LateTick(50, 0.1),
                  Late(Degraded, DAY + 50 * MINUTE, At(MIDNIGHT), 0, 1, 1, Zero, BACK))
    ensures Leads(Example(), Late(Degraded, DAY + 50 * MINUTE, At(MIDNIGHT), 0, 1, 1, Zero, BACK), LateTick(60, 0.1),
                  Counted())
    ensures Leads(Example(), Counted(), LateTick(70, 0.1),
                  Late(FailingOver, DAY + 70 * MINUTE, At(MIDNIGHT), 0, 1, 3, Zero, BACK))
    ensures Leads(Example(), Late(FailingOver, DAY + 70 * MINUTE, At(MIDNIGHT), 0, 1, 3, Zero, BACK),
                  LateTick(80, 0.1),
                  Late(FailedOver, DAY + 80 * MINUTE, At(DAY + 80 * MINUTE), 1, 1, 0, Zero, MOVED))
  {
  }

  // Two bad checks, the second saved ten minutes after the move to DEGRADED.
  function Counted(): World {
    var w := Late(Degraded, DAY + 50 * MINUTE, At(MIDNIGHT), 0, 1, 2, Zero, BACK);
    w.(file := Valid(w.file.snapshot.(updatedAt := At(DAY + 60 * MINUTE))))
  }

  function LateWorlds(): seq<World> {
    [Late(FailingOver, DAY - 10 * MINUTE, Zero, 0, 0, 3, Zero, map[]),
     Late(FailedOver, MIDNIGHT, At(MIDNIGHT), 1, 0, 0, Zero, MOVED),
     Late(Recovering, DAY + 10 * MINUTE, At(MIDNIGHT), 0, 1, 0, At(DAY + 10 * MINUTE), MOVED),
     Late(Healthy, DAY + 30 * MINUTE, At(MIDNIGHT), 0, 1, 0, Zero, BACK),
     Late(Degraded, DAY + 50 * MINUTE, At(MIDNIGHT), 0, 1, 1, Zero, BACK),
     Counted(),
     Late(FailingOver, DAY + 70 * MINUTE, At(MIDNIGHT), 0, 1, 3, Zero, BACK),
     Late(FailedOver, DAY + 80 * MINUTE, At(DAY + 80 * MINUTE), 1, 1, 0, Zero, MOVED)]
  }

  function LateEvents(): seq<Event> {
    [MidnightTick(), LateTick(10, 0.9), LateTick(30, 0.9), LateTick(50, 0.1), LateTick(60, 0.1),
     LateTick(70, 0.1), LateTick(80, 0.1)]
  }

  lemma {:induction false} LateChained()
    ensures Chained(Example(), LateWorlds(), LateEvents())
  {
    hide Step;
    var ws, es := LateWorlds(), LateEvents();
    forall k | 0 <= k < |es| ensures Leads(Example(), ws[k], es[k], ws[k + 1]) {
      if k < 3 {
        LateFailsOver();
        LateComesBack();
      } else {
        LateFailsOverAgain();
      }
    }
  }

  lemma {:induction false} LateInOrder()
    ensures InOrder(LateEvents())
  {
  }

  /**
    With a limit of one failover a day, two carry a LastFailoverTime of the same day: the first is recorded by
    a tick that loaded the state before midnight, so it is charged to the day before.
   */
  lemma {:induction false} TwoFailoversOnOneDay() returns (ws: seq<World>, es: seq<Event>)
    ensures IsRun(Example(), ws, es) && SaneFile(Example(), ws[0].file)
    ensures Calendar(Example()) && Example().params == DEFAULT_PARAMS && DEFAULT_PARAMS.Sane()
    ensures StampedOn(Example(), ws, es, |es|, 1) == 2 && DEFAULT_PARAMS.maxDailyFailovers == 1
  {
    hide Step;
    ExampleCalendar();
    ws, es := LateWorlds(), LateEvents();
    LateChained();
    LateInOrder();
    ChainedIsRun(Example(), ws, es);
    CountStamped(Example(), ws, es);
  }

  lemma {:induction false} CountStamped(d: Deployment, ws: seq<World>, es: seq<Event>)
    requires |es| == 7 && |ws| == 8 && Records(ws, 0) && Records(ws, 6)
    requires forall k :: 1 <= k <= 5 ==> StateOf(ws[k].file) != FailingOver
    requires d.dayOf(es[0].input.t.act) == d.dayOf(es[6].input.t.act) == 1
    ensures StampedOn(d, ws, es, 7, 1) == 2
  {
    assert StampedOn(d, ws, es, 1, 1) == 1;
    assert StampedOn(d, ws, es, 3, 1) == 1;
    assert StampedOn(d, ws, es, 5, 1) == 1;
  }
}
