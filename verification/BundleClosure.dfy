/**
  What every accepted bundle guarantees of its lifecycles, policies, source steps and references, and when
  collecting its documents fails.
*/
module BundleClosure {
  import opened BundleModel
  import opened BundleWorkflow
  import opened BundleTheorems

  // ---------------------------------------------------------------- delivery

  lemma {:induction false} DeliveryOf(b: Bundle, id: string)
    requires Closed(b) && id in V2Paths(b)
    ensures Names(b.paths[id].deliveryProfile) && b.paths[id].deliveryProfile.value in b.deliveries
    ensures DeliveryFits(b, b.paths[id], b.deliveries[b.paths[id].deliveryProfile.value])
  {
    hide EntityFits, RealmAdmits, WellOrdered, ObserverFits, DeliveryFits;
    PathFacts(b, id);
  }

  /**
    Every run of a version 2 path that cannot be continued has waited for a human merge and passed the source
    gates, whatever the version of its delivery profile.
   */
  lemma {:induction false} SourceStepsPerformed(b: Bundle, id: string, run: seq<Event>)
    requires Closed(b) && id in V2Paths(b) && Legal(b.paths[id].workflow, run)
    requires forall e :: !May(b.paths[id].workflow, run, e)
    ensures Performed(b.paths[id].workflow, run, "await-human-merge", "delivery.await-human-merge/v1")
    ensures Performed(b.paths[id].workflow, run, "validate-change", "verification.run-source-gates/v1")
  {
    hide Closed, WellOrdered, Performed, Does, Legal;
    var workflow := b.paths[id].workflow;
    DeliveryOf(b, id);
    AcceptedIsOrdered(b, id);
    MaximalRunsComplete(workflow, run);
    DoesIsPerformed(workflow, run, "await-human-merge", "delivery.await-human-merge/v1");
    DoesIsPerformed(workflow, run, "validate-change", "verification.run-source-gates/v1");
  }

  /** Some entity class of a version 2 path requires the mechanism by which it is delivered. */
  lemma {:induction false} MechanismRequired(b: Bundle, id: string)
    requires Closed(b) && id in V2Paths(b)
    ensures var profile := b.paths[id].deliveryProfile;
            && profile.Some? && profile.value in b.deliveries
            && exists entity :: entity in b.paths[id].entityClasses && entity in b.entities
                                && b.deliveries[profile.value].mechanism in b.entities[entity].requiredCapabilities
  {
    hide Closed, Does;
    DeliveryOf(b, id);
    var p := b.paths[id];
    var profile := b.deliveries[p.deliveryProfile.value];
    var k :| 0 <= k < |p.entityClasses| && p.entityClasses[k] in b.entities
             && profile.mechanism in b.entities[p.entityClasses[k]].requiredCapabilities;
    assert p.entityClasses[k] in p.entityClasses;
  }

  // ---------------------------------------------------------------- lifecycles, policies, versions

  /** A path is of one of two versions, and binds a delivery profile exactly in the second. */
  lemma {:induction false} VersionsBindProfiles(b: Bundle, id: string)
    requires Closed(b) && id in b.paths
    ensures b.paths[id].version in {V1, V2}
    ensures b.paths[id].version == V1 <==> b.paths[id].deliveryProfile in {None, Some("")}
  {
    hide EntityFits, RealmAdmits, WellOrdered, ObserverFits, DeliveryFits;
    PathFacts(b, id);
  }

  // Everything that a path depends on is in its own state of the lifecycle.
  predicate SameLifecycle(b: Bundle, id: string)
    requires id in b.paths
  {
    var p := b.paths[id];
    && p.product in b.products && b.products[p.product].lifecycle == p.state
    && (forall entity :: entity in p.entityClasses ==> entity in b.entities && b.entities[entity].state == p.state)
    && (p.deliveryProfile.Some? && p.deliveryProfile.value in b.deliveries && p.version == V2 ==>
          var profile := b.deliveries[p.deliveryProfile.value];
          && profile.state == p.state
          && (profile.version == V2 ==>
                profile.runtimeProfile in b.probes && b.probes[profile.runtimeProfile].state == p.state))
  }

  /** In an accepted bundle, a path shares its lifecycle with its product, entity classes and both its profiles. */
  lemma {:induction false} LifecyclesAgree(b: Bundle, id: string)
    requires Closed(b) && id in b.paths
    ensures SameLifecycle(b, id)
  {
    hide RealmAdmits, WellOrdered, DeliveryFits, ObserverChained, ConditionsFrozen;
    PathFacts(b, id);
    var p := b.paths[id];
    forall entity | entity in p.entityClasses ensures entity in b.entities && b.entities[entity].state == p.state {
      var k :| 0 <= k < |p.entityClasses| && p.entityClasses[k] == entity;
      assert EntityFits(b, p, p.entityClasses[k]);
    }
  }

  /** It carries the policies that its delivery needs, and its probes look at the Realm it supports first. */
  lemma {:induction false} PoliciesCarried(b: Bundle, id: string)
    requires Closed(b) && id in V2Paths(b)
    ensures var p := b.paths[id];
            && p.deliveryProfile.Some? && p.deliveryProfile.value in b.deliveries
            && var profile := b.deliveries[p.deliveryProfile.value];
            && profile.path == id && profile.repositoryPolicy in p.policies
            && (profile.version == V2 ==>
                  && "delivery.platform-observer-access/v1" in p.policies
                  && |p.supportedRealms| > 0 && profile.runtimeProfile in b.probes
                  && var probe := b.probes[profile.runtimeProfile];
                  && probe.path == id && probe.deliveryProfile == p.deliveryProfile.value
                  && probe.realm == p.supportedRealms[0])
  {
    hide EntityFits, RealmAdmits, WellOrdered, DeliveryFits, ObserverChained, ConditionsFrozen;
    PathFacts(b, id);
  }

  // ---------------------------------------------------------------- references

  /** No reference of an accepted bundle dangles. */
  lemma {:induction false} NothingDangles(b: Bundle)
    requires Closed(b)
    ensures forall id, realm :: id in b.entities && realm in b.entities[id].allowedRealms ==> realm in b.realms
    ensures forall id, path :: id in b.products && path in b.products[id].paths ==> path in b.paths
    ensures forall id, path :: id in b.realms && path in b.realms[id].admittedPaths ==> path in b.paths
    ensures forall id :: id in b.paths ==>
                           b.paths[id].product in b.products && id in b.products[b.paths[id].product].paths
    ensures forall id, entity :: id in b.paths && entity in b.paths[id].entityClasses ==> entity in b.entities
    ensures forall id, realm :: id in b.paths && realm in b.paths[id].supportedRealms ==> realm in b.realms
  {
    hide PathOk;
    forall id, path | id in b.products && path in b.products[id].paths ensures path in b.paths {
      assert b.products[id].paths <= b.paths.Keys;
    }
    forall id, path | id in b.realms && path in b.realms[id].admittedPaths ensures path in b.paths {
      assert b.realms[id].admittedPaths <= b.paths.Keys;
    }
    forall id, realm | id in b.entities && realm in b.entities[id].allowedRealms ensures realm in b.realms {
      assert b.entities[id].allowedRealms <= b.realms.Keys;
    }
    forall id | id in b.paths
      ensures b.paths[id].product in b.products && id in b.products[b.paths[id].product].paths
      ensures forall entity :: entity in b.paths[id].entityClasses ==> entity in b.entities
      ensures forall realm :: realm in b.paths[id].supportedRealms ==> realm in b.realms
    {
      PathResolves(b, id);
    }
  }

  lemma {:induction false} PathResolves(b: Bundle, id: string)
    requires Closed(b) && id in b.paths
    ensures b.paths[id].product in b.products && id in b.products[b.paths[id].product].paths
    ensures forall entity :: entity in b.paths[id].entityClasses ==> entity in b.entities
    ensures forall realm :: realm in b.paths[id].supportedRealms ==> realm in b.realms
    // Every entity class allows every Realm of the path.
    ensures forall entity, realm :: entity in b.paths[id].entityClasses && realm in b.paths[id].supportedRealms ==>
                                      realm in b.entities[entity].allowedRealms
  {
    hide WellOrdered, ObserverFits, DeliveryFits, ProfileBound;
    PathFacts(b, id);
    var p := b.paths[id];
    forall entity | entity in p.entityClasses
      ensures entity in b.entities
      ensures forall realm :: realm in p.supportedRealms ==> realm in b.entities[entity].allowedRealms
    {
      var k :| 0 <= k < |p.entityClasses| && p.entityClasses[k] == entity;
      assert EntityFits(b, p, p.entityClasses[k]);
    }
    forall realm | realm in p.supportedRealms ensures realm in b.realms {
      var k :| 0 <= k < |p.supportedRealms| && p.supportedRealms[k] == realm;
      assert RealmAdmits(b, id, p, p.supportedRealms[k]);
    }
  }

  // ---------------------------------------------------------------- the observer chain by its names

  /** The lifecycle of observer access, step by step: each of these finishes before the next one starts. */
  lemma {:induction false} ObserverLifecycle(b: Bundle, id: string, run: seq<Event>)
    requires Closed(b) && Observed(b, id) && Legal(b.paths[id].workflow, run)
    ensures var w := b.paths[id].workflow;
            && Before(w, run, "await-human-merge", "register-observer-access-compensation")
            && Before(w, run, "register-observer-access-compensation", "provision-observer-access")
            && Before(w, run, "provision-observer-access", "attest-observer-access")
            && Before(w, run, "attest-observer-access", "issue-observer-credential")
            && Before(w, run, "issue-observer-credential", "observe-gitops")
            && Before(w, run, "observe-gitops", "store-observation-evidence")
            && Before(w, run, "store-observation-evidence", "issue-http-probe-credential")
            && Before(w, run, "issue-http-probe-credential", "verify-runtime")
            && Before(w, run, "verify-runtime", "store-http-probe-result")
            && Before(w, run, "store-http-probe-result", "revoke-observer-access")
  {
    hide Closed, Before, Legal;
    forall k | 0 <= k < 10
      ensures Before(b.paths[id].workflow, run, OBSERVER_CHAIN[k].0, OBSERVER_CHAIN[k + 1].0)
    {
      ObserverOrder(b, id, run, k, k + 1);
    }
    ChainByName();
  }

  lemma {:induction false} ChainByName()
    ensures |OBSERVER_CHAIN| == 11
    ensures OBSERVER_CHAIN[0] == ("await-human-merge", "delivery.await-human-merge/v1")
    ensures OBSERVER_CHAIN[1] == ("register-observer-access-compensation", "execution.register-compensation/v1")
    ensures OBSERVER_CHAIN[2] == ("provision-observer-access", "delivery.provision-observer-access/v1")
    ensures OBSERVER_CHAIN[3] == ("attest-observer-access", "delivery.attest-observer-access/v1")
    ensures OBSERVER_CHAIN[4] == ("issue-observer-credential", "delivery.issue-observer-credential/v1")
    ensures OBSERVER_CHAIN[5] == ("observe-gitops", "delivery.observe-argocd-sync/v2")
    ensures OBSERVER_CHAIN[6] == ("store-observation-evidence", "evidence.store-delivery-observation/v1")
    ensures OBSERVER_CHAIN[7] == ("issue-http-probe-credential", "verification.issue-http-probe-credential/v1")
    ensures OBSERVER_CHAIN[8] == ("verify-runtime", "verification.run-http-probes/v1")
    ensures OBSERVER_CHAIN[9] == ("store-http-probe-result", "evidence.store-http-probe-result/v1")
    ensures OBSERVER_CHAIN[10] == ("revoke-observer-access", "delivery.revoke-observer-access/v1")
  {
  }

  // ---------------------------------------------------------------- order, by running

  // The workflow done one step at a time, in the order in which it is listed.
  function Listed(n: nat): (run: seq<Event>)
    ensures |run| == 2 * n
  {
    if n == 0 then [] else Listed(n - 1) + [Start(n - 1), Finish(n - 1)]
  }

  lemma {:induction false} ListedMeans(n: nat, i: nat)
    ensures i in Started(Listed(n)) <==> i < n
    ensures i in Finished(Listed(n)) <==> i < n
  {
    hide Started, Finished;
    if n > 0 {
      ListedMeans(n - 1, i);
      var run := Listed(n - 1);
      Extended(run, Start(n - 1));
      Extended(run + [Start(n - 1)], Finish(n - 1));
      assert Listed(n) == run + [Start(n - 1)] + [Finish(n - 1)];
    } else {
      NothingYet();
    }
  }

  lemma {:induction false} ListedStep(workflow: seq<Step>, n: nat)
    requires 0 < n <= |workflow|
    ensures Legal(workflow, Listed(n)) <==> Legal(workflow, Listed(n - 1)) && Ready(workflow, n - 1, Listed(n - 1))
  {
    hide Started, Finished, Ready;
    var run := Listed(n - 1);
    var more := run + [Start(n - 1)];
    assert Listed(n)[..|Listed(n)| - 1] == more && more[..|more| - 1] == run;
    ListedMeans(n - 1, n - 1);
    Extended(run, Start(n - 1));
  }

  lemma {:induction false} ListedLegal(workflow: seq<Step>, n: nat)
    requires n <= |workflow|
    ensures Legal(workflow, Listed(n)) <==>
              forall i: nat :: i < n ==> Ready(workflow, i, Listed(i))
  {
    hide Legal, Ready;
    if n > 0 {
      ListedLegal(workflow, n - 1);
      ListedStep(workflow, n);
    } else {
      EmptyIsLegal(workflow);
    }
  }

  lemma {:induction false} EmptyIsLegal(workflow: seq<Step>)
    ensures Legal(workflow, [])
  {
  }

  lemma {:induction false} ReadyInOrder(workflow: seq<Step>, i: nat)
    requires i < |workflow|
    ensures Ready(workflow, i, Listed(i)) <==>
              forall need :: need in workflow[i].needs ==> exists j :: 0 <= j < i && workflow[j].id == need
  {
    forall j: nat ensures j in Finished(Listed(i)) <==> j < i {
      ListedMeans(i, j);
    }
  }

  /** A workflow is accepted exactly when its identifiers differ and it can be run in the order it is listed. */
  lemma {:induction false} OrderedExactly(workflow: seq<Step>)
    ensures WellOrdered(workflow) <==>
              && (forall i, j :: 0 <= i < j < |workflow| ==> workflow[i].id != workflow[j].id)
              && Legal(workflow, Listed(|workflow|))
  {
    hide Legal, Ready, Listed;
    ListedLegal(workflow, |workflow|);
    forall i: nat | i < |workflow|
      ensures Ready(workflow, i, Listed(i)) <==>
                forall need :: need in workflow[i].needs ==> exists j :: 0 <= j < i && workflow[j].id == need
    {
      ReadyInOrder(workflow, i);
    }
    if Legal(workflow, Listed(|workflow|)) {
      forall i | 0 <= i < |workflow|
        ensures forall need :: need in workflow[i].needs ==> exists j :: 0 <= j < i && workflow[j].id == need
      {
        assert Ready(workflow, i, Listed(i));
      }
    }
  }

  // ---------------------------------------------------------------- when collecting fails

  // Two documents of one kind with one identifier.
  predicate SameSlot(x: Document, y: Document) {
    match (x, y)
    case (ProductDoc(i, _), ProductDoc(j, _)) => i == j
    case (EntityDoc(i, _), EntityDoc(j, _)) => i == j
    case (RealmDoc(i, _), RealmDoc(j, _)) => i == j
    case (DeliveryDoc(i, _), DeliveryDoc(j, _)) => i == j
    case (ProbeDoc(i, _), ProbeDoc(j, _)) => i == j
    case (PathDoc(i, _), PathDoc(j, _)) => i == j
    case (AttestorDoc(i), AttestorDoc(j)) => i == j
    case _ => false
  }

  predicate Occupied(b: Bundle, doc: Document) {
    match doc
    case ProductDoc(id, _) => id in b.products
    case EntityDoc(id, _) => id in b.entities
    case RealmDoc(id, _) => id in b.realms
    case DeliveryDoc(id, _) => id in b.deliveries
    case ProbeDoc(id, _) => id in b.probes
    case PathDoc(id, _) => id in b.paths
    case AttestorDoc(id) => id in b.attestors
    case UnsupportedDoc(_) => false
  }

  lemma {:induction false} AddExactly(b: Bundle, doc: Document, other: Document)
    ensures Add(b, doc).None? <==> doc.UnsupportedDoc? || Occupied(b, doc)
    ensures Add(b, doc).Some? ==> (Occupied(Add(b, doc).value, other) <==> Occupied(b, other) || SameSlot(doc, other))
  {
  }

  lemma {:induction false} OccupiedExactly(docs: seq<Document>, other: Document)
    requires Collect(docs).Some?
    ensures Occupied(Collect(docs).value, other) <==> exists j :: 0 <= j < |docs| && SameSlot(docs[j], other)
  {
    hide Add, Occupied, SameSlot;
    if docs != [] {
      var n := |docs| - 1;
      OccupiedExactly(docs[..n], other);
      AddExactly(Collect(docs[..n]).value, docs[n], other);
      assert forall j :: 0 <= j < n ==> docs[..n][j] == docs[j];
    } else {
      NothingOccupied(other);
    }
  }

  lemma {:induction false} NothingOccupied(other: Document)
    ensures !Occupied(EMPTY, other)
  {
  }

  predicate Clashes(docs: seq<Document>, k: nat)
    requires k < |docs|
  {
    docs[k].UnsupportedDoc? || exists j :: 0 <= j < k && SameSlot(docs[j], docs[k])
  }

  /** Collecting fails exactly for an unsupported kind, or for two documents of one kind with one identifier. */
  lemma {:induction false} CollectFailsExactly(docs: seq<Document>)
    ensures Collect(docs).None? <==> exists k: nat :: k < |docs| && Clashes(docs, k)
  {
    hide Add, Occupied, SameSlot, Clashes;
    if docs != [] {
      var n := |docs| - 1;
      CollectFailsExactly(docs[..n]);
      forall k: nat | k < n ensures Clashes(docs[..n], k) == Clashes(docs, k) {
        SamePrefixClashes(docs, n, k);
      }
      if Collect(docs[..n]).Some? {
        LastClashes(docs);
        AddExactly(Collect(docs[..n]).value, docs[n], docs[n]);
      }
    }
  }

  lemma {:induction false} SamePrefixClashes(docs: seq<Document>, n: nat, k: nat)
    requires k < n <= |docs|
    ensures Clashes(docs[..n], k) == Clashes(docs, k)
  {
    hide SameSlot;
    assert forall j :: 0 <= j < n ==> docs[..n][j] == docs[j];
  }

  lemma {:induction false} LastClashes(docs: seq<Document>)
    requires docs != [] && Collect(docs[..|docs| - 1]).Some?
    ensures var n := |docs| - 1;
            Clashes(docs, n) <==> docs[n].UnsupportedDoc? || Occupied(Collect(docs[..n]).value, docs[n])
  {
    hide SameSlot, Occupied, Collect;
    var n := |docs| - 1;
    OccupiedExactly(docs[..n], docs[n]);
    assert forall j :: 0 <= j < n ==> docs[..n][j] == docs[j];
  }
}
