/**
  What one evaluation of the DNS failover controller does to the two things that
  outlive it: the state file and the nameservers held by the registrar.

  The controller re-reads its file at every tick and forgets its memory afterwards,
  so a tick is a function from (file, nameservers) and the answers of the outside
  world to a new (file, nameservers). Times are nanoseconds.
*/
module FailoverModel {
  datatype Option<+T> = None | Some(value: T)

  // ---------------------------------------------------------------- time

  // A Go time.Time: the zero value, or an instant.
  datatype Stamp = Zero | At(t: int)

  const MAX_DURATION := 0x7fff_ffff_ffff_ffff
  const MIN_DURATION := -0x8000_0000_0000_0000
  const SECOND := 1_000_000_000
  const MINUTE := 60 * SECOND
  const HOUR := 60 * MINUTE

  // time.Since: saturates at the bounds of a 64-bit duration, and is the maximum for the zero time.
  function Since(now: int, s: Stamp): int {
    match s
    case Zero => MAX_DURATION
    case At(t) =>
      if now - t > MAX_DURATION then MAX_DURATION
      else if now - t < MIN_DURATION then MIN_DURATION
      else now - t
  }

  // The clock readings of one tick, in the order in which the code takes them.
  datatype Readings = Readings(
    load: int,  // day rollover or default state, in Load
    act: int,   // the handler's own reading
    dwell: int, // minimum-time check, in ValidateTransition
    cool: int,  // failover-cooldown check, in ValidateTransition
    stamp: int, // LastTransitionTime, in transition
    save: int   // UpdatedAt, in Save
  ) {
    predicate Ordered() {
      load <= act <= dwell <= cool <= stamp <= save
    }
  }

  // ---------------------------------------------------------------- persisted state

  datatype State = Healthy | Degraded | FailingOver | FailedOver | Recovering | Unknown(name: string)

  datatype Snapshot = Snapshot(
    state: State,
    primaryId: string,
    secondaryId: string,
    domain: string,
    lastTransition: Stamp,
    lastFailover: Stamp,
    dailyCount: int,
    resetDay: int,
    degradedCount: int,
    recoveryStart: Stamp,
    updatedAt: Stamp
  )

  datatype File = Missing | Corrupt | Valid(snapshot: Snapshot)

  type Nameservers = seq<string>

  const PRIMARY_NS: Nameservers := ["ns1.primary-provider.com", "ns2.primary-provider.com"]
  const SECONDARY_NS: Nameservers := ["ns1.secondary-provider.com", "ns2.secondary-provider.com"]

  // Everything that survives the end of a tick, or the death of the process.
  datatype World = World(file: File, ns: map<string, Nameservers>)

  // What the registrar reports for a domain.
  function NsOf(ns: map<string, Nameservers>, domain: string): Nameservers {
    if domain in ns then ns[domain] else PRIMARY_NS
  }

  // ---------------------------------------------------------------- deployment

  datatype SafetyParams = SafetyParams(
    minTimeInState: int,
    failoverCooldown: int,
    maxDailyFailovers: int,
    requireManualAuth: bool,
    recoveryCooldown: int
  ) {
    // The settings are 64-bit durations, none of them negative.
    predicate Sane() {
      && 0 <= minTimeInState <= MAX_DURATION
      && 0 <= failoverCooldown <= MAX_DURATION
      && 0 <= recoveryCooldown <= MAX_DURATION
    }
  }

  const DEFAULT_PARAMS := SafetyParams(5 * MINUTE, 1 * HOUR, 1, false, 10 * MINUTE)

  // The environment variables from which a default state is built.
  datatype Defaults = Defaults(primaryId: string, secondaryId: string, domain: string)

  // yearDay is Go's YearDay; dayOf numbers the calendar days without wrapping at the year's end.
  datatype Deployment = Deployment(
    params: SafetyParams,
    defaults: Defaults,
    dayOf: int -> int,
    yearDay: int -> int
  )

  // Calendar days do not run backwards, and determine the day of the year.
  ghost predicate Calendar(d: Deployment) {
    && (forall s, t :: s <= t ==> d.dayOf(s) <= d.dayOf(t))
    && (forall s, t :: d.dayOf(s) == d.dayOf(t) ==> d.yearDay(s) == d.yearDay(t))
  }

  // ---------------------------------------------------------------- the outside world

  datatype ProviderHealth = ProviderHealth(id: string, score: real)
  datatype ScoresReply = ScoresError | Scores(list: seq<ProviderHealth>)

  // A registrar that answers with an error may still have applied the update.
  datatype UpdateReply = Applied | Refused | AppliedThenError
  datatype SaveReply = Committed | WriteFails | RenameFails

  datatype Input = Input(
    t: Readings,
    readable: bool, // reading the file does not fail with an I/O error
    scores: ScoresReply,
    getNs: bool,    // GetNameservers answers without error
    update: UpdateReply,
    save: SaveReply
  )

  // ---------------------------------------------------------------- thresholds

  const DEGRADE_THRESHOLD: real := 0.5
  const RECOVERY_THRESHOLD: real := 0.7
  const CHECKS_REQUIRED := 3

  // The first entry with the identifier, as findProvider returns it.
  function Lookup(list: seq<ProviderHealth>, id: string): Option<real> {
    if list == [] then None
    else if list[0].id == id then Some(list[0].score)
    else Lookup(list[1..], id)
  }

  function PrimaryScore(s: Snapshot, reply: ScoresReply): Option<real> {
    match reply
    case ScoresError => None
    case Scores(list) => Lookup(list, s.primaryId)
  }

  // ---------------------------------------------------------------- loading

  function DefaultState(d: Deployment, now: int): Snapshot {
    Snapshot(Healthy, d.defaults.primaryId, d.defaults.secondaryId, d.defaults.domain,
             At(now), Zero, 0, d.yearDay(now), 0, Zero, Zero)
  }

  // A missing or corrupt file gives the default state; a new day resets the failover count.
  function Loaded(d: Deployment, file: File, now: int): Snapshot {
    match file
    case Missing => DefaultState(d, now)
    case Corrupt => DefaultState(d, now)
    case Valid(s) =>
      if s.resetDay != d.yearDay(now) then s.(dailyCount := 0, resetDay := d.yearDay(now)) else s
  }

  // ---------------------------------------------------------------- guarded transitions

  function Allowed(from: State): seq<State> {
    match from
    case Healthy => [Degraded]
    case Degraded => [Healthy, FailingOver]
    case FailingOver => [FailedOver, Degraded]
    case FailedOver => [Recovering]
    case Recovering => [Healthy, FailedOver]
    case Unknown(_) => []
  }

  predicate Permits(p: SafetyParams, s: Snapshot, to: State, t: Readings) {
    && to in Allowed(s.state)
    && Since(t.dwell, s.lastTransition) >= p.minTimeInState
    && (to == FailingOver ==>
          && (s.lastFailover == Zero || Since(t.cool, s.lastFailover) >= p.failoverCooldown)
          && s.dailyCount < p.maxDailyFailovers
          && !p.requireManualAuth)
  }

  // The snapshot a transition tries to save, or nothing when it is blocked.
  function Moved(d: Deployment, s: Snapshot, to: State, t: Readings): Option<Snapshot> {
    if Permits(d.params, s, to, t)
    then Some(s.(state := to, lastTransition := At(t.stamp), updatedAt := At(t.save)))
    else None
  }

  // ---------------------------------------------------------------- one tick

  // At most one nameserver update is sent, then at most one save is tried.
  datatype Outcome = Outcome(update: Option<Nameservers>, save: Option<Snapshot>)

  const IDLE := Outcome(None, None)

  function Quiet(save: Option<Snapshot>): Outcome { Outcome(None, save) }

  function OnHealthy(d: Deployment, s: Snapshot, i: Input): Outcome {
    match PrimaryScore(s, i.scores)
    case None => IDLE
    case Some(x) =>
      if x < DEGRADE_THRESHOLD then Quiet(Moved(d, s.(degradedCount := 1), Degraded, i.t)) else IDLE
  }

  function OnDegraded(d: Deployment, s: Snapshot, i: Input): Outcome {
    match PrimaryScore(s, i.scores)
    case None => IDLE
    case Some(x) =>
      if x >= DEGRADE_THRESHOLD then Quiet(Moved(d, s.(degradedCount := 0), Healthy, i.t))
      else
        var c := s.degradedCount + 1;
        if c >= CHECKS_REQUIRED then Quiet(Moved(d, s.(degradedCount := c), FailingOver, i.t))
        else Quiet(Some(s.(degradedCount := c, updatedAt := At(i.t.save))))
  }

  // The failover is sent to the registrar: nothing went wrong before UpdateNameservers.
  predicate FailoverSent(s: Snapshot, i: Input) {
    i.getNs && s.secondaryId != ""
  }

  function OnFailingOver(d: Deployment, s: Snapshot, i: Input): Outcome {
    if !FailoverSent(s, i) then Quiet(Moved(d, s, Degraded, i.t))
    else
      Outcome(if i.update.Refused? then None else Some(SECONDARY_NS),
              if i.update.Applied?
              then Moved(d, s.(lastFailover := At(i.t.act), dailyCount := s.dailyCount + 1, degradedCount := 0),
                         FailedOver, i.t)
              else Moved(d, s, Degraded, i.t))
  }

  function OnFailedOver(d: Deployment, s: Snapshot, i: Input): Outcome {
    match PrimaryScore(s, i.scores)
    case None => IDLE
    case Some(x) =>
      if x > RECOVERY_THRESHOLD
      then Quiet(Moved(d, s.(recoveryStart := At(i.t.act)), Recovering, i.t)) else IDLE
  }

  // The cooldown is over, the primary is well, and the failback is sent to the registrar.
  predicate FailbackSent(d: Deployment, s: Snapshot, i: Input) {
    && PrimaryScore(s, i.scores).Some?
    && PrimaryScore(s, i.scores).value >= DEGRADE_THRESHOLD
    && Since(i.t.act, s.recoveryStart) >= d.params.recoveryCooldown
    && s.primaryId != ""
  }

  function OnRecovering(d: Deployment, s: Snapshot, i: Input): Outcome {
    if i.scores.ScoresError? then IDLE
    else
      var score := PrimaryScore(s, i.scores);
      if score.None? then Quiet(Moved(d, s, FailedOver, i.t))
      else if score.value < DEGRADE_THRESHOLD then Quiet(Moved(d, s.(recoveryStart := Zero), FailedOver, i.t))
      else if !FailbackSent(d, s, i) then IDLE
      else
        Outcome(if i.update.Refused? then None else Some(PRIMARY_NS),
                if i.update.Applied?
                then Moved(d, s.(degradedCount := 0, recoveryStart := Zero), Healthy, i.t) else None)
  }

  function Handle(d: Deployment, s: Snapshot, i: Input): Outcome {
    match s.state
    case Healthy => OnHealthy(d, s, i)
    case Degraded => OnDegraded(d, s, i)
    case FailingOver => OnFailingOver(d, s, i)
    case FailedOver => OnFailedOver(d, s, i)
    case Recovering => OnRecovering(d, s, i)
    case Unknown(_) => Quiet(Moved(d, s, Healthy, i.t))
  }

  // A tick can die before the registrar is told, or after that and before the rename of Save.
  datatype Crash = Survives | DiesBeforeUpdate | DiesBeforeRename

  function NsAfter(w: World, s: Snapshot, o: Outcome): map<string, Nameservers> {
    if o.update.Some? then w.ns[s.domain := o.update.value] else w.ns
  }

  function Step(d: Deployment, w: World, i: Input, crash: Crash): World {
    if !i.readable || crash.DiesBeforeUpdate? then w
    else
      var s := Loaded(d, w.file, i.t.load);
      var o := Handle(d, s, i);
      World(if o.save.Some? && i.save.Committed? && crash.Survives? then Valid(o.save.value) else w.file,
            NsAfter(w, s, o))
  }

  function Tick(d: Deployment, w: World, i: Input): World {
    Step(d, w, i, Survives)
  }

  // ---------------------------------------------------------------- runs

  datatype Event = Event(input: Input, crash: Crash)

  // ws[k] is the world before event k; the ticks do not overlap and the clock does not run backwards.
  ghost predicate IsRun(d: Deployment, ws: seq<World>, es: seq<Event>) {
    && |ws| == |es| + 1
    && (forall k :: 0 <= k < |es| ==> es[k].input.t.Ordered())
    && (forall k {:trigger es[k]} :: 0 <= k < |es| ==> ws[k + 1] == Step(d, ws[k], es[k].input, es[k].crash))
    && (forall j, k :: 0 <= j < k < |es| ==> es[j].input.t.save <= es[k].input.t.load)
  }

  // The state the next tick will dispatch on.
  function StateOf(file: File): State {
    if file.Valid? then file.snapshot.state else Healthy
  }

  predicate Moves(ws: seq<World>, k: nat)
    requires k + 1 < |ws|
  {
    StateOf(ws[k + 1].file) != StateOf(ws[k].file)
  }
}
