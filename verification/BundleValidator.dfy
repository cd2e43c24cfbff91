/**
  The bundle validator as the Python script runs it: dictionaries filled in a loop,
  checks over their items with a growing set of seen steps, set differences at the
  end. Each method reports whether the source raises.
*/
module BundleValidator {
  import opened BundleModel

  method CollectDocuments(docs: seq<Document>) returns (b: Option<Bundle>)
    ensures b == Collect(docs)
  {
    var bundle := EMPTY;
    var n := 0;
    while n < |docs|
      invariant 0 <= n <= |docs|
      invariant Collect(docs[..n]) == Some(bundle)
    {
      assert docs[..n + 1][..n] == docs[..n];
      var next := Add(bundle, docs[n]);
      if next == None {
        CollectStops(docs, n + 1);
        return None;
      }
      bundle := next.value;
      n := n + 1;
    }
    assert docs[..n] == docs;
    return Some(bundle);
  }

  lemma {:induction false} CollectStops(docs: seq<Document>, n: nat)
    requires n <= |docs| && Collect(docs[..n]) == None
    ensures Collect(docs) == None
    decreases |docs|
  {
    hide Add;
    if n < |docs| {
      assert docs[..|docs| - 1][..n] == docs[..n];
      CollectStops(docs[..|docs| - 1], n);
    } else {
      assert docs[..n] == docs;
    }
  }

  method FindStep(workflow: seq<Step>, id: string) returns (step: Option<Step>)
    ensures step == Find(workflow, id)
  {
    step := None;
    var n := 0;
    while n < |workflow|
      invariant 0 <= n <= |workflow|
      invariant step == Find(workflow[..n], id)
    {
      assert workflow[..n + 1][..n] == workflow[..n];
      if workflow[n].id == id {
        step := Some(workflow[n]);
      }
      n := n + 1;
    }
    assert workflow[..n] == workflow;
  }

  // The steps in order, with the set of identifiers seen so far.
  method ValidateWorkflow(workflow: seq<Step>) returns (ok: bool)
    ensures ok <==> WellOrdered(workflow)
  {
    var seen: set<string> := {};
    var n := 0;
    while n < |workflow|
      invariant 0 <= n <= |workflow|
      invariant forall id :: id in seen <==> exists j :: 0 <= j < n && workflow[j].id == id
      invariant forall i, j :: 0 <= i < j < n ==> workflow[i].id != workflow[j].id
      invariant forall i :: 0 <= i < n ==>
                  forall need :: need in workflow[i].needs ==> exists j :: 0 <= j < i && workflow[j].id == need
    {
      var step := workflow[n];
      if step.id in seen {
        return false;
      }
      var unknown := exists k :: 0 <= k < |step.needs| && step.needs[k] !in seen;
      if unknown {
        ghost var k :| 0 <= k < |step.needs| && step.needs[k] !in seen;
        assert step.needs[k] in workflow[n].needs;
        return false;
      }
      seen := seen + {step.id};
      n := n + 1;
    }
    ok := true;
  }

  method ValidateObserverChain(workflow: seq<Step>) returns (ok: bool)
    ensures ok <==> ObserverChained(workflow)
  {
    var n := 0;
    while n < |OBSERVER_CHAIN|
      invariant 0 <= n <= |OBSERVER_CHAIN|
      invariant forall k :: 0 <= k < n ==> Does(workflow, OBSERVER_CHAIN[k].0, OBSERVER_CHAIN[k].1)
      invariant forall k :: 0 < k < n ==> NeedsOnly(workflow, OBSERVER_CHAIN[k].0, OBSERVER_CHAIN[k - 1].0)
    {
      hide Does, NeedsOnly;
      var id, action := OBSERVER_CHAIN[n].0, OBSERVER_CHAIN[n].1;
      var does := CheckAction(workflow, id, action);
      if !does {
        return false;
      }
      if n > 0 {
        var needs := CheckNeeds(workflow, id, OBSERVER_CHAIN[n - 1].0);
        if !needs {
          return false;
        }
      }
      n := n + 1;
    }
    ok := true;
  }

  method CheckAction(workflow: seq<Step>, id: string, action: string) returns (ok: bool)
    ensures ok == Does(workflow, id, action)
  {
    var step := FindStep(workflow, id);
    ok := step != None && step.value.action == action;
  }

  method CheckNeeds(workflow: seq<Step>, id: string, need: string) returns (ok: bool)
    ensures ok == NeedsOnly(workflow, id, need)
  {
    var step := FindStep(workflow, id);
    ok := step != None && step.value.needs == [need];
  }

  method ValidateFreeze(workflow: seq<Step>) returns (ok: bool)
    ensures ok == ConditionsFrozen(workflow)
  {
    var frozen := CheckAction(workflow, "freeze-http-conditions", "verification.freeze-http-conditions/v1");
    if !frozen {
      return false;
    }
    var after := CheckNeeds(workflow, "freeze-http-conditions", "inspect-source");
    if !after {
      return false;
    }
    ok := CheckNeeds(workflow, "author-change", "freeze-http-conditions");
  }

  method ValidateObserver(b: Bundle, id: string, p: Path, profileId: string, profile: DeliveryProfile)
    returns (ok: bool)
    ensures ok <==> ObserverFits(b, id, p, profileId, profile)
  {
    hide ObserverChained, ConditionsFrozen;
    if profile.runtimeProfile !in b.probes || |p.supportedRealms| == 0 {
      return false;
    }
    var probe := b.probes[profile.runtimeProfile];
    if probe.path != id || probe.deliveryProfile != profileId || probe.realm != p.supportedRealms[0] {
      return false;
    }
    if probe.state != p.state {
      return false;
    }
    var chained := ValidateObserverChain(p.workflow);
    if !chained {
      return false;
    }
    var frozen := ValidateFreeze(p.workflow);
    ok := frozen && "delivery.platform-observer-access/v1" in p.policies;
  }

  method ValidateEntities(b: Bundle, p: Path) returns (ok: bool)
    ensures ok <==> forall k :: 0 <= k < |p.entityClasses| ==> EntityFits(b, p, p.entityClasses[k])
  {
    var n := 0;
    while n < |p.entityClasses|
      invariant 0 <= n <= |p.entityClasses|
      invariant forall k :: 0 <= k < n ==> EntityFits(b, p, p.entityClasses[k])
    {
      var entity := p.entityClasses[n];
      if entity !in b.entities || b.entities[entity].state != p.state {
        return false;
      }
      var allowed := b.entities[entity].allowedRealms;
      var missing := exists k :: 0 <= k < |p.supportedRealms| && p.supportedRealms[k] !in allowed;
      if missing {
        return false;
      }
      n := n + 1;
    }
    ok := true;
  }

  method ValidateRealms(b: Bundle, id: string, p: Path) returns (ok: bool)
    ensures ok <==> forall k :: 0 <= k < |p.supportedRealms| ==> RealmAdmits(b, id, p, p.supportedRealms[k])
  {
    var n := 0;
    while n < |p.supportedRealms|
      invariant 0 <= n <= |p.supportedRealms|
      invariant forall k :: 0 <= k < n ==> RealmAdmits(b, id, p, p.supportedRealms[k])
    {
      var realmId := p.supportedRealms[n];
      if realmId !in b.realms {
        return false;
      }
      var realm := b.realms[realmId];
      if p.state == Draft {
        if id in realm.admittedPaths {
          return false;
        }
      } else {
        if id !in realm.admittedPaths {
          return false;
        }
        if p.state !in realm.admittedStates {
          return false;
        }
      }
      n := n + 1;
    }
    ok := true;
  }

  method ValidatePath(b: Bundle, id: string, p: Path) returns (ok: bool)
    ensures ok <==> PathOk(b, id, p)
  {
    hide EntityFits, RealmAdmits, WellOrdered, ObserverFits, DeliveryFits;
    if p.product !in b.products || id !in b.products[p.product].paths {
      return false;
    }
    if b.products[p.product].lifecycle != p.state {
      return false;
    }
    if !ProfileBound(b, id, p) {
      return false;
    }
    var entitiesOk := ValidateEntities(b, p);
    if !entitiesOk {
      return false;
    }
    if p.version == V2 {
      var profileId := p.deliveryProfile.value;
      var profile := b.deliveries[profileId];
      if !DeliveryFits(b, p, profile) {
        return false;
      }
      if profile.version == V2 {
        var observerOk := ValidateObserver(b, id, p, profileId, profile);
        if !observerOk {
          return false;
        }
      }
    }
    var realmsOk := ValidateRealms(b, id, p);
    if !realmsOk {
      return false;
    }
    ok := ValidateWorkflow(p.workflow);
  }

  /** Returns the bundle exactly when no document is a duplicate and everything is closed. */
  method ValidateSemantics(docs: seq<Document>) returns (b: Option<Bundle>)
    ensures b.Some? <==> Collect(docs).Some? && Closed(Collect(docs).value)
    ensures b.Some? ==> b == Collect(docs)
  {
    hide PathOk, Known, Collect;
    b := CollectDocuments(docs);
    if b == None {
      return None;
    }
    var bundle := b.value;
    if !Known(bundle) {
      return None;
    }
    var rest := bundle.paths.Keys;
    while rest != {}
      invariant rest <= bundle.paths.Keys
      invariant forall id :: id in bundle.paths.Keys - rest ==> PathOk(bundle, id, bundle.paths[id])
      decreases |rest|
    {
      var id :| id in rest;
      var pathOk := ValidatePath(bundle, id, bundle.paths[id]);
      if !pathOk {
        return None;
      }
      rest := rest - {id};
    }
    if !(bundle.deliveries.Keys <= ReferencedProfiles(bundle)) {
      return None;
    }
    if !(bundle.probes.Keys <= ReferencedProbes(bundle)) {
      return None;
    }
  }

  method ValidateRequest(b: Bundle, q: Request) returns (ok: bool)
    ensures ok <==> RequestOk(b, q)
  {
    if q.product !in b.products {
      return false;
    }
    if q.path !in b.paths || q.path !in b.products[q.product].paths {
      return false;
    }
    var path := b.paths[q.path];
    if path.product != q.product {
      return false;
    }
    if q.realm !in b.realms || q.realm !in path.supportedRealms {
      return false;
    }
    ok := q.path in b.realms[q.realm].admittedPaths;
  }
}
