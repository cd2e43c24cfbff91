/**
  The controller as the Go program runs it: a state object mutated by handlers, a
  state store, a registrar client and the state machine over them. Every handler is
  proved against its specification in FailoverModel.
*/
module FailoverController {
  import opened FailoverModel

  // The in-memory state of one tick.
  class ControllerState {
    var currentState: State
    var primaryProviderID: string
    var secondaryProviderID: string
    var domain: string
    var lastTransitionTime: Stamp
    var lastFailoverTime: Stamp
    var dailyFailoverCount: int
    var dailyFailoverResetDay: int
    var degradedCheckCount: int
    var recoveryStartTime: Stamp
    var updatedAt: Stamp

    // What Save writes.
    function Marshal(): Snapshot
      reads this
    {
      Snapshot(currentState, primaryProviderID, secondaryProviderID, domain, lastTransitionTime, lastFailoverTime,
               dailyFailoverCount, dailyFailoverResetDay, degradedCheckCount, recoveryStartTime, updatedAt)
    }

    constructor Unmarshal(s: Snapshot)
      ensures Marshal() == s
    {
      currentState := s.state;
      primaryProviderID := s.primaryId;
      secondaryProviderID := s.secondaryId;
      domain := s.domain;
      lastTransitionTime := s.lastTransition;
      lastFailoverTime := s.lastFailover;
      dailyFailoverCount := s.dailyCount;
      dailyFailoverResetDay := s.resetDay;
      degradedCheckCount := s.degradedCount;
      recoveryStartTime := s.recoveryStart;
      updatedAt := s.updatedAt;
    }
  }

  // What outlives the process changes in one of two ways.
  datatype Effect = Sent(ns: map<string, Nameservers>) | Renamed(file: File)

  function After(w: World, e: Effect): World {
    match e
    case Sent(ns) => w.(ns := ns)
    case Renamed(file) => w.(file := file)
  }

  function Replay(w: World, effects: seq<Effect>): World {
    if effects == [] then w else After(Replay(w, effects[..|effects| - 1]), effects[|effects| - 1])
  }

  // The effects in the order in which they happened. The registrar and the store enter each of theirs.
  class Ledger {
    ghost var effects: seq<Effect>

    constructor ()
      ensures effects == []
    {
      effects := [];
    }
  }

  class StateStore {
    var file: File
    var tmp: File // the ".tmp" file next to it, which Load never reads
    const ledger: Ledger

    constructor (f: File, ledger: Ledger)
      ensures file == f && this.ledger == ledger
    {
      file := f;
      tmp := Missing;
      this.ledger := ledger;
    }

    method DefaultState(d: Deployment, now: int) returns (state: ControllerState)
      ensures fresh(state) && state.Marshal() == FailoverModel.DefaultState(d, now)
    {
      state := new ControllerState.Unmarshal(
        Snapshot(Healthy, d.defaults.primaryId, d.defaults.secondaryId, d.defaults.domain,
                 At(now), Zero, 0, d.yearDay(now), 0, Zero, Zero));
    }

    method Load(d: Deployment, readable: bool, now: int) returns (state: ControllerState?)
      ensures state == null <==> !readable
      ensures state != null ==> fresh(state) && state.Marshal() == Loaded(d, file, now)
    {
      if !readable {
        return null;
      }
      if !file.Valid? {
        state := DefaultState(d, now);
        return;
      }
      var loaded := new ControllerState.Unmarshal(file.snapshot);
      var today := d.yearDay(now);
      if loaded.dailyFailoverResetDay != today {
        loaded.dailyFailoverCount := 0;
        loaded.dailyFailoverResetDay := today;
      }
      return loaded;
    }

    // Whatever fails, the file holds either its old contents or all of the new ones.
    method Save(state: ControllerState, reply: SaveReply, now: int) returns (ok: bool)
      modifies this, state`updatedAt, ledger
      ensures ok == reply.Committed?
      ensures state.Marshal() == old(state.Marshal()).(updatedAt := At(now))
      ensures file == if ok then Valid(state.Marshal()) else old(file)
      ensures ledger.effects == old(ledger.effects) + (if ok then [Renamed(file)] else [])
    {
      state.updatedAt := At(now);
      if reply.WriteFails? {
        return false;
      }
      tmp := Valid(state.Marshal());
      if reply.RenameFails? {
        return false;
      }
      file := tmp;
      ledger.effects := ledger.effects + [Renamed(file)];
      tmp := Missing;
      return true;
    }
  }

  class RegistrarClient {
    var currentNS: map<string, Nameservers>
    const ledger: Ledger

    constructor (ledger: Ledger)
      ensures currentNS == map[] && this.ledger == ledger
    {
      currentNS := map[];
      this.ledger := ledger;
    }

    method GetNameservers(domain: string, answers: bool) returns (ns: Option<Nameservers>)
      ensures ns == if answers then Some(NsOf(currentNS, domain)) else None
    {
      if !answers {
        return None;
      }
      if domain in currentNS {
        return Some(currentNS[domain]);
      }
      return Some(["ns1.primary-provider.com", "ns2.primary-provider.com"]);
    }

    method UpdateNameservers(domain: string, nameservers: Nameservers, reply: UpdateReply) returns (ok: bool)
      modifies this`currentNS, ledger
      ensures ok == reply.Applied?
      ensures currentNS == if reply.Refused? then old(currentNS) else old(currentNS)[domain := nameservers]
      ensures ledger.effects == old(ledger.effects) + (if reply.Refused? then [] else [Sent(currentNS)])
    {
      if !reply.Refused? {
        currentNS := currentNS[domain := nameservers];
        ledger.effects := ledger.effects + [Sent(currentNS)];
      }
      return reply.Applied?;
    }
  }

  /** Refuses a transition exactly when the guards of the specification do not permit it. */
  method ValidateTransition(state: ControllerState, toState: State, params: SafetyParams, t: Readings)
    returns (permitted: bool)
    ensures permitted == Permits(params, state.Marshal(), toState, t)
  {
    var allowed := Allowed(state.currentState);
    var found := false;
    var k := 0;
    while k < |allowed| && !found
      invariant 0 <= k <= |allowed|
      invariant found <==> toState in allowed[..k]
    {
      if allowed[k] == toState {
        found := true;
      }
      k := k + 1;
    }
    if !found {
      return false;
    }
    var elapsed := Since(t.dwell, state.lastTransitionTime);
    if elapsed < params.minTimeInState {
      return false;
    }
    if toState == FailingOver {
      if state.lastFailoverTime != Zero {
        var sinceLast := Since(t.cool, state.lastFailoverTime);
        if sinceLast < params.failoverCooldown {
          return false;
        }
      }
      if state.dailyFailoverCount >= params.maxDailyFailovers {
        return false;
      }
    }
    if params.requireManualAuth && toState == FailingOver {
      return false;
    }
    return true;
  }

  method FindProvider(list: seq<ProviderHealth>, id: string) returns (score: Option<real>)
    ensures score == Lookup(list, id)
  {
    var k := 0;
    while k < |list|
      invariant 0 <= k <= |list|
      invariant Lookup(list, id) == Lookup(list[k..], id)
    {
      if list[k].id == id {
        return Some(list[k].score);
      }
      k := k + 1;
    }
    return None;
  }

  // The effects of an outcome on a world, and the world they lead to.
  function EffectsOf(w: World, o: Outcome, domain: string, save: SaveReply): seq<Effect> {
    (if o.update.Some? then [Sent(w.ns[domain := o.update.value])] else [])
    + (if o.save.Some? && save.Committed? then [Renamed(Valid(o.save.value))] else [])
  }

  function WorldAfter(w: World, o: Outcome, domain: string, save: SaveReply): World {
    World(if o.save.Some? && save.Committed? then Valid(o.save.value) else w.file,
          if o.update.Some? then w.ns[domain := o.update.value] else w.ns)
  }

  lemma {:induction false} ReplayTwo(w: World, a: Effect, b: Effect)
    ensures Replay(w, []) == w && Replay(w, [a]) == After(w, a) && Replay(w, [a, b]) == After(After(w, a), b)
  {
    hide After;
    assert [a][..0] == [] && [a, b][..1] == [a];
    assert Replay(w, [a]) == After(Replay(w, []), a);
    assert Replay(w, [a, b]) == After(Replay(w, [a]), b);
  }

  // Every prefix of the effects leaves a world that some crash of the specification leaves.
  lemma {:induction false} TickByEffects(d: Deployment, w: World, i: Input)
    requires i.readable
    ensures var s := Loaded(d, w.file, i.t.load);
            var o := Handle(d, s, i);
            var done := EffectsOf(w, o, s.domain, i.save);
            && WorldAfter(w, o, s.domain, i.save) == Tick(d, w, i) == Replay(w, done)
            && forall n :: 0 <= n <= |done| ==> exists c :: Replay(w, done[..n]) == Step(d, w, i, c)
  {
    hide Handle, Loaded, Step, EffectsOf, WorldAfter, Replay;
    var s := Loaded(d, w.file, i.t.load);
    var o := Handle(d, s, i);
    var done := EffectsOf(w, o, s.domain, i.save);
    CrashesByEffects(d, w, i);
    ReplayOfOutcome(w, o, s.domain, i.save);
    forall n | 0 <= n <= |done| ensures exists c :: Replay(w, done[..n]) == Step(d, w, i, c) {
      assert Replay(w, done[..n])
          in {Step(d, w, i, Survives), Step(d, w, i, DiesBeforeUpdate), Step(d, w, i, DiesBeforeRename)};
    }
  }

  // What each crash leaves, in terms of the outcome.
  lemma {:induction false} CrashesByEffects(d: Deployment, w: World, i: Input)
    requires i.readable
    ensures var s := Loaded(d, w.file, i.t.load);
            var after := WorldAfter(w, Handle(d, s, i), s.domain, i.save);
            && Step(d, w, i, DiesBeforeUpdate) == w
            && Step(d, w, i, DiesBeforeRename) == World(w.file, after.ns)
            && Step(d, w, i, Survives) == after
  {
    hide Handle, Loaded;
  }

  lemma {:induction false} ReplayOfOutcome(w: World, o: Outcome, domain: string, save: SaveReply)
    ensures var done, after := EffectsOf(w, o, domain, save), WorldAfter(w, o, domain, save);
            && Replay(w, done) == after
            && forall n :: 0 <= n <= |done| ==> Replay(w, done[..n]) in {w, World(w.file, after.ns), after}
  {
    hide Replay;
    var done, after := EffectsOf(w, o, domain, save), WorldAfter(w, o, domain, save);
    forall n | 0 <= n <= |done| ensures Replay(w, done[..n]) in {w, World(w.file, after.ns), after} {
      PrefixOfEffects(w, o, domain, save, n);
    }
    PrefixOfEffects(w, o, domain, save, |done|);
    assert done[..|done|] == done;
  }

  lemma {:induction false} PrefixOfEffects(w: World, o: Outcome, domain: string, save: SaveReply, n: nat)
    requires n <= |EffectsOf(w, o, domain, save)|
    ensures var done, after := EffectsOf(w, o, domain, save), WorldAfter(w, o, domain, save);
            Replay(w, done[..n]) == if n == |done| then after else if n == 0 then w else World(w.file, after.ns)
  {
    hide Replay;
    var done := EffectsOf(w, o, domain, save);
    var a := Sent(if o.update.Some? then w.ns[domain := o.update.value] else w.ns);
    var b := Renamed(if o.save.Some? then Valid(o.save.value) else w.file);
    ReplayTwo(w, a, b);
    ReplayTwo(w, b, a);
    var updates, saves := o.update.Some?, o.save.Some? && save.Committed?;
    assert done == if updates && saves then [a, b] else if updates then [a] else if saves then [b] else [];
    assert done[..n] == if n == |done| then done else if n == 0 then [] else [a];
  }

  lemma {:induction false} UnreadableTick(d: Deployment, w: World, i: Input)
    requires !i.readable
    ensures Tick(d, w, i) == w == Replay(w, [])
    ensures exists c :: Replay(w, [][..0]) == Step(d, w, i, c)
  {
    assert Step(d, w, i, Survives) == w;
  }

  // The dispatch of the specification, state by state.
  lemma {:induction false} Dispatched(d: Deployment, s: Snapshot, i: Input)
    ensures Handle(d, s, i) == match s.state
                               case Healthy => OnHealthy(d, s, i)
                               case Degraded => OnDegraded(d, s, i)
                               case FailingOver => OnFailingOver(d, s, i)
                               case FailedOver => OnFailedOver(d, s, i)
                               case Recovering => OnRecovering(d, s, i)
                               case Unknown(_) => Quiet(Moved(d, s, Healthy, i.t))
  {
  }

  class StateMachine {
    const d: Deployment
    const registrar: RegistrarClient
    const stateStore: StateStore

    constructor (d: Deployment, registrar: RegistrarClient, stateStore: StateStore)
      ensures this.d == d && this.registrar == registrar && this.stateStore == stateStore
    {
      this.d := d;
      this.registrar := registrar;
      this.stateStore := stateStore;
    }

    // The registrar and the store share one ledger.
    ghost predicate Wired() {
      registrar.ledger == stateStore.ledger
    }

    ghost function TheWorld(): World
      reads registrar, stateStore
    {
      World(stateStore.file, registrar.currentNS)
    }

    ghost function Effects(): seq<Effect>
      reads stateStore.ledger
    {
      stateStore.ledger.effects
    }

    // A handler has had exactly the effects of an outcome, the update before the save.
    twostate predicate Did(o: Outcome, domain: string, i: Input)
      reads registrar, stateStore, stateStore.ledger
    {
      && TheWorld() == WorldAfter(old(TheWorld()), o, domain, i.save)
      && Effects() == old(Effects()) + EffectsOf(old(TheWorld()), o, domain, i.save)
    }

    method Evaluate(i: Input)
      requires Wired()
      modifies registrar, stateStore, stateStore.ledger
      ensures TheWorld() == Tick(d, old(TheWorld()), i)
      // The effects of the tick lead to that world, and dying after any number of them leaves a world
      // that one of the crashes of the specification leaves.
      ensures |old(Effects())| <= |Effects()| && Effects()[..|old(Effects())|] == old(Effects())
      ensures var done := Effects()[|old(Effects())|..];
              && TheWorld() == Replay(old(TheWorld()), done)
              && forall n :: 0 <= n <= |done| ==>
                               exists c :: Replay(old(TheWorld()), done[..n]) == Step(d, old(TheWorld()), i, c)
    {
      hide Permits, Step, Handle, Replay, WorldAfter, EffectsOf;
      ghost var w0 := TheWorld();
      var state := stateStore.Load(d, i.readable, i.t.load);
      if state == null {
        UnreadableTick(d, w0, i);
        assert Effects()[|old(Effects())|..] == [];
        return;
      }
      ghost var s := state.Marshal();
      match state.currentState {
        case Healthy => HandleHealthy(state, i);
        case Degraded => HandleDegraded(state, i);
        case FailingOver => HandleFailingOver(state, i);
        case FailedOver => HandleFailedOver(state, i);
        case Recovering => HandleRecovering(state, i);
        case Unknown(_) =>
          Transition(state, Healthy, i);
      }
      assert Did(Handle(d, s, i), s.domain, i) by {
        Dispatched(d, s, i);
      }
      ghost var done := EffectsOf(w0, Handle(d, s, i), s.domain, i.save);
      assert Effects()[|old(Effects())|..] == done;
      TickByEffects(d, w0, i);
    }

    method HandleHealthy(state: ControllerState, i: Input)
      requires state.currentState == Healthy
      requires Wired()
      modifies registrar, stateStore, stateStore.ledger, state
      ensures Did(OnHealthy(d, old(state.Marshal()), i), old(state.domain), i)
    {
      hide Permits;
      if i.scores.ScoresError? {
        return;
      }
      var primary := FindProvider(i.scores.list, state.primaryProviderID);
      if primary == None {
        return;
      }
      if primary.value < DEGRADE_THRESHOLD {
        state.degradedCheckCount := 1;
        Transition(state, Degraded, i);
      }
    }

    method HandleDegraded(state: ControllerState, i: Input)
      requires state.currentState == Degraded
      requires Wired()
      modifies registrar, stateStore, stateStore.ledger, state
      ensures Did(OnDegraded(d, old(state.Marshal()), i), old(state.domain), i)
    {
      hide Permits;
      if i.scores.ScoresError? {
        return;
      }
      var primary := FindProvider(i.scores.list, state.primaryProviderID);
      if primary == None {
        return;
      }
      if primary.value >= DEGRADE_THRESHOLD {
        state.degradedCheckCount := 0;
        Transition(state, Healthy, i);
        return;
      }
      state.degradedCheckCount := state.degradedCheckCount + 1;
      if state.degradedCheckCount >= CHECKS_REQUIRED {
        Transition(state, FailingOver, i);
        return;
      }
      var _ := stateStore.Save(state, i.save, i.t.save);
    }

    method HandleFailingOver(state: ControllerState, i: Input)
      requires state.currentState == FailingOver
      requires Wired()
      modifies registrar, stateStore, stateStore.ledger, state
      ensures Did(OnFailingOver(d, old(state.Marshal()), i), old(state.domain), i)
    {
      hide Permits;
      var currentNS := registrar.GetNameservers(state.domain, i.getNs);
      if currentNS == None {
        Transition(state, Degraded, i);
        return;
      }
      var secondaryNS := ResolveSecondaryNameservers(state);
      if secondaryNS == None {
        Transition(state, Degraded, i);
        return;
      }
      var ok := registrar.UpdateNameservers(state.domain, secondaryNS.value, i.update);
      if !ok {
        Transition(state, Degraded, i);
        return;
      }
      // The answer of VerifyPropagation is only logged.
      state.lastFailoverTime := At(i.t.act);
      state.dailyFailoverCount := state.dailyFailoverCount + 1;
      state.degradedCheckCount := 0;
      Transition(state, FailedOver, i);
    }

    method HandleFailedOver(state: ControllerState, i: Input)
      requires state.currentState == FailedOver
      requires Wired()
      modifies registrar, stateStore, stateStore.ledger, state
      ensures Did(OnFailedOver(d, old(state.Marshal()), i), old(state.domain), i)
    {
      hide Permits;
      if i.scores.ScoresError? {
        return;
      }
      var primary := FindProvider(i.scores.list, state.primaryProviderID);
      if primary == None {
        return;
      }
      if primary.value > RECOVERY_THRESHOLD {
        state.recoveryStartTime := At(i.t.act);
        Transition(state, Recovering, i);
      }
    }

    method HandleRecovering(state: ControllerState, i: Input)
      requires state.currentState == Recovering
      requires Wired()
      modifies registrar, stateStore, stateStore.ledger, state
      ensures Did(OnRecovering(d, old(state.Marshal()), i), old(state.domain), i)
    {
      hide Permits;
      if i.scores.ScoresError? {
        return;
      }
      var primary := FindProvider(i.scores.list, state.primaryProviderID);
      if primary == None {
        Transition(state, FailedOver, i);
        return;
      }
      if primary.value < DEGRADE_THRESHOLD {
        state.recoveryStartTime := Zero;
        Transition(state, FailedOver, i);
        return;
      }
      if Since(i.t.act, state.recoveryStartTime) < d.params.recoveryCooldown {
        return;
      }
      var primaryNS := ResolvePrimaryNameservers(state);
      if primaryNS == None {
        return;
      }
      var ok := registrar.UpdateNameservers(state.domain, primaryNS.value, i.update);
      if !ok {
        return;
      }
      state.degradedCheckCount := 0;
      state.recoveryStartTime := Zero;
      Transition(state, Healthy, i);
    }

    // A blocked transition saves nothing, so the edits made to the state before it are lost.
    method Transition(state: ControllerState, toState: State, i: Input)
      modifies stateStore, stateStore.ledger, state
      ensures Did(Quiet(Moved(d, old(state.Marshal()), toState, i.t)), old(state.domain), i)
    {
      hide Permits;
      var permitted := ValidateTransition(state, toState, d.params, i.t);
      if !permitted {
        return;
      }
      state.currentState := toState;
      state.lastTransitionTime := At(i.t.stamp);
      var _ := stateStore.Save(state, i.save, i.t.save);
    }

    method ResolveSecondaryNameservers(state: ControllerState) returns (ns: Option<Nameservers>)
      ensures ns == if state.secondaryProviderID == "" then None else Some(SECONDARY_NS)
    {
      if state.secondaryProviderID == "" {
        return None;
      }
      return Some(["ns1.secondary-provider.com", "ns2.secondary-provider.com"]);
    }

    method ResolvePrimaryNameservers(state: ControllerState) returns (ns: Option<Nameservers>)
      ensures ns == if state.primaryProviderID == "" then None else Some(PRIMARY_NS)
    {
      if state.primaryProviderID == "" {
        return None;
      }
      return Some(["ns1.primary-provider.com", "ns2.primary-provider.com"]);
    }
  }
}
