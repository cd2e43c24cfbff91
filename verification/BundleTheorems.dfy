/**
  What the acceptance of a bundle guarantees: its references are one-to-one, its
  workflows are safe under every schedule, and its requests are admissible.
*/
module BundleTheorems {
  import opened BundleModel
  import opened BundleWorkflow

  // ---------------------------------------------------------------- the documents

  predicate Holds(b: Bundle, doc: Document) {
    match doc
    case ProductDoc(id, x) => id in b.products && b.products[id] == x
    case EntityDoc(id, x) => id in b.entities && b.entities[id] == x
    case RealmDoc(id, x) => id in b.realms && b.realms[id] == x
    case DeliveryDoc(id, x) => id in b.deliveries && b.deliveries[id] == x
    case ProbeDoc(id, x) => id in b.probes && b.probes[id] == x
    case PathDoc(id, x) => id in b.paths && b.paths[id] == x
    case AttestorDoc(id) => id in b.attestors
    case UnsupportedDoc(_) => false
  }

  function Size(b: Bundle): nat {
    |b.products| + |b.entities| + |b.realms| + |b.deliveries| + |b.probes| + |b.paths| + |b.attestors|
  }

  lemma {:induction false} AddKeeps(b: Bundle, doc: Document, other: Document)
    requires Add(b, doc).Some?
    ensures Holds(Add(b, doc).value, doc)
    ensures Holds(b, other) ==> Holds(Add(b, doc).value, other)
  {
  }

  lemma {:induction false} AddGrows(b: Bundle, doc: Document)
    requires Add(b, doc).Some?
    ensures Size(Add(b, doc).value) == Size(b) + 1
  {
  }

  lemma {:induction false} EmptySize()
    ensures Size(EMPTY) == 0
  {
  }

  /** Collecting loses and invents nothing: every document is held, and there are as many entries as documents. */
  lemma {:induction false} CollectExact(docs: seq<Document>, k: nat)
    requires Collect(docs).Some?
    ensures Size(Collect(docs).value) == |docs|
    ensures k < |docs| ==> Holds(Collect(docs).value, docs[k])
  {
    hide Add, Holds, Size;
    if docs == [] {
      EmptySize();
    } else {
      var n := |docs| - 1;
      CollectExact(docs[..n], k);
      var doc := docs[if k < n then k else n];
      AddKeeps(Collect(docs[..n]).value, docs[n], doc);
      AddGrows(Collect(docs[..n]).value, docs[n]);
    }
  }

  // ---------------------------------------------------------------- references

  function V2Paths(b: Bundle): set<string> {
    set id | id in b.paths && b.paths[id].version == V2
  }

  function V2Deliveries(b: Bundle): set<string> {
    set id | id in b.deliveries && b.deliveries[id].version == V2
  }

  lemma {:induction false} OneToOneSizes(a: set<string>, b: set<string>, f: map<string, string>)
    requires f.Keys == a
    requires forall x :: x in a ==> f[x] in b
    requires forall x, y :: x in a && y in a && f[x] == f[y] ==> x == y
    requires forall y :: y in b ==> exists x :: x in a && f[x] == y
    ensures |a| == |b|
    decreases |a|
  {
    if a != {} {
      var x :| x in a;
      var g := map k | k in a && k != x :: f[k];
      forall y | y in b - {f[x]} ensures exists k :: k in a - {x} && g[k] == y {
        var k :| k in a && f[k] == y;
        assert k in a - {x} && g[k] == y;
      }
      OneToOneSizes(a - {x}, b - {f[x]}, g);
    } else {
      assert b == {};
    }
  }

  lemma {:induction false} PathFacts(b: Bundle, id: string)
    requires Closed(b) && id in b.paths
    ensures PathOk(b, id, b.paths[id])
  {
  }

  lemma {:induction false} ProfileOfPath(b: Bundle, id: string)
    requires Closed(b) && id in b.paths && Names(b.paths[id].deliveryProfile)
    ensures b.paths[id].version == V2 && b.paths[id].deliveryProfile.value in b.deliveries
    ensures b.deliveries[b.paths[id].deliveryProfile.value].path == id
  {
    hide EntityFits, RealmAdmits, WellOrdered, ObserverFits, DeliveryFits;
    PathFacts(b, id);
  }

  /** Each delivery profile is bound to exactly one path, a version 2 path that names it. */
  lemma {:induction false} PathOfProfile(b: Bundle, profile: string)
    requires Closed(b) && profile in b.deliveries
    ensures b.deliveries[profile].path in V2Paths(b)
    ensures b.paths[b.deliveries[profile].path].deliveryProfile == Some(profile)
    ensures forall id :: id in b.paths && b.paths[id].deliveryProfile == Some(profile) ==>
                           id == b.deliveries[profile].path
  {
    hide PathOk;
    assert profile in ReferencedProfiles(b);
    var id :| id in b.paths && Names(b.paths[id].deliveryProfile) && b.paths[id].deliveryProfile.value == profile;
    ProfileOfPath(b, id);
    forall other | other in b.paths && b.paths[other].deliveryProfile == Some(profile)
      ensures other == b.deliveries[profile].path
    {
      ProfileOfPath(b, other);
    }
  }

  /** Version 2 paths and delivery profiles correspond one to one. */
  lemma {:induction false} PathsMatchProfiles(b: Bundle)
    requires Closed(b)
    ensures forall id :: id in V2Paths(b) ==>
                           && Names(b.paths[id].deliveryProfile)
                           && b.paths[id].deliveryProfile.value in b.deliveries
                           && b.deliveries[b.paths[id].deliveryProfile.value].path == id
    ensures forall d :: d in b.deliveries ==>
                          && b.deliveries[d].path in V2Paths(b)
                          && b.paths[b.deliveries[d].path].deliveryProfile == Some(d)
    ensures |V2Paths(b)| == |b.deliveries|
  {
    hide Closed;
    forall id | id in V2Paths(b)
      ensures Names(b.paths[id].deliveryProfile) && b.paths[id].deliveryProfile.value in b.deliveries
      ensures b.deliveries[b.paths[id].deliveryProfile.value].path == id
    {
      V2Named(b, id);
      ProfileOfPath(b, id);
    }
    forall d | d in b.deliveries
      ensures b.deliveries[d].path in V2Paths(b) && b.paths[b.deliveries[d].path].deliveryProfile == Some(d)
    {
      PathOfProfile(b, d);
    }
    var f := map id | id in V2Paths(b) :: b.paths[id].deliveryProfile.value;
    forall d | d in b.deliveries.Keys ensures exists id :: id in V2Paths(b) && f[id] == d {
      assert f[b.deliveries[d].path] == d;
    }
    OneToOneSizes(V2Paths(b), b.deliveries.Keys, f);
  }

  lemma {:induction false} V2Named(b: Bundle, id: string)
    requires Closed(b) && id in V2Paths(b)
    ensures Names(b.paths[id].deliveryProfile)
  {
    hide EntityFits, RealmAdmits, WellOrdered, ObserverFits, DeliveryFits;
    PathFacts(b, id);
  }

  lemma {:induction false} ProbeOfProfile(b: Bundle, d: string)
    requires Closed(b) && d in V2Deliveries(b)
    ensures b.deliveries[d].runtimeProfile in b.probes
    ensures b.probes[b.deliveries[d].runtimeProfile].deliveryProfile == d
    ensures b.probes[b.deliveries[d].runtimeProfile].path == b.deliveries[d].path
  {
    hide EntityFits, RealmAdmits, WellOrdered, DeliveryFits, ObserverChained, ConditionsFrozen;
    PathOfProfile(b, d);
    PathFacts(b, b.deliveries[d].path);
  }

  /** Version 2 delivery profiles and HTTP probe profiles correspond one to one. */
  lemma {:induction false} ProfilesMatchProbes(b: Bundle)
    requires Closed(b)
    ensures forall d :: d in V2Deliveries(b) ==>
                          && b.deliveries[d].runtimeProfile in b.probes
                          && b.probes[b.deliveries[d].runtimeProfile].deliveryProfile == d
    ensures forall q :: q in b.probes ==>
                          && b.probes[q].deliveryProfile in V2Deliveries(b)
                          && b.deliveries[b.probes[q].deliveryProfile].runtimeProfile == q
    ensures |V2Deliveries(b)| == |b.probes|
  {
    hide PathOk, Known;
    forall d | d in V2Deliveries(b)
      ensures b.deliveries[d].runtimeProfile in b.probes
      ensures b.probes[b.deliveries[d].runtimeProfile].deliveryProfile == d
    {
      ProbeOfProfile(b, d);
    }
    forall q | q in b.probes
      ensures b.probes[q].deliveryProfile in V2Deliveries(b)
      ensures b.deliveries[b.probes[q].deliveryProfile].runtimeProfile == q
    {
      assert q in ReferencedProbes(b);
      var d :| d in b.deliveries && b.deliveries[d].version == V2 && b.deliveries[d].runtimeProfile == q;
      assert d in V2Deliveries(b);
      ProbeOfProfile(b, d);
    }
    var f := map d | d in V2Deliveries(b) :: b.deliveries[d].runtimeProfile;
    forall q | q in b.probes.Keys ensures exists d :: d in V2Deliveries(b) && f[d] == q {
      assert f[b.probes[q].deliveryProfile] == q;
    }
    OneToOneSizes(V2Deliveries(b), b.probes.Keys, f);
  }

  // ---------------------------------------------------------------- workflows

  lemma {:induction false} AcceptedIsOrdered(b: Bundle, id: string)
    requires Closed(b) && id in b.paths
    ensures WellOrdered(b.paths[id].workflow)
  {
    hide EntityFits, RealmAdmits, WellOrdered, ObserverFits, DeliveryFits;
    PathFacts(b, id);
  }

  /** Every run of every accepted path is finite, and goes on until all steps are done. */
  lemma {:induction false} AcceptedWorkflowsFinish(b: Bundle, id: string, run: seq<Event>)
    requires Closed(b) && id in b.paths && Legal(b.paths[id].workflow, run)
    ensures var workflow := b.paths[id].workflow;
            && |run| <= 2 * |workflow|
            && (AllDone(workflow, run) <==> forall e :: !May(workflow, run, e))
  {
    hide Closed, WellOrdered;
    var workflow := b.paths[id].workflow;
    AcceptedIsOrdered(b, id);
    RunsTerminate(workflow, run);
    if !AllDone(workflow, run) {
      var e := NoDeadlock(workflow, run);
    } else {
      LegalMeans(workflow, run);
    }
  }

  // The path is bound to a version 2 delivery profile.
  predicate Observed(b: Bundle, id: string) {
    && id in b.paths && b.paths[id].version == V2 && Names(b.paths[id].deliveryProfile)
    && b.paths[id].deliveryProfile.value in b.deliveries
    && b.deliveries[b.paths[id].deliveryProfile.value].version == V2
  }

  lemma {:induction false} ObservedIsChained(b: Bundle, id: string)
    requires Closed(b) && Observed(b, id)
    ensures ObserverChained(b.paths[id].workflow) && ConditionsFrozen(b.paths[id].workflow)
    ensures WellOrdered(b.paths[id].workflow)
  {
    hide EntityFits, RealmAdmits, WellOrdered, DeliveryFits, ObserverChained, ConditionsFrozen;
    PathFacts(b, id);
  }

  /** In every run of an observed path, however scheduled, the observer chain happens in its order. */
  lemma {:induction false} ObserverOrder(b: Bundle, id: string, run: seq<Event>, x: nat, y: nat)
    requires Closed(b) && Observed(b, id) && Legal(b.paths[id].workflow, run)
    requires x < y < |OBSERVER_CHAIN|
    ensures Before(b.paths[id].workflow, run, OBSERVER_CHAIN[x].0, OBSERVER_CHAIN[y].0)
  {
    hide Closed, WellOrdered, ObserverChained, ConditionsFrozen, Before, Legal;
    ObservedIsChained(b, id);
    ChainGoesInOrder(b.paths[id].workflow, run, x, y);
  }

  /** The HTTP conditions are frozen, after the source is inspected, before anything is authored. */
  lemma {:induction false} FrozenBeforeAuthoring(b: Bundle, id: string, run: seq<Event>)
    requires Closed(b) && Observed(b, id) && Legal(b.paths[id].workflow, run)
    ensures Before(b.paths[id].workflow, run, "freeze-http-conditions", "author-change")
    ensures Before(b.paths[id].workflow, run, "inspect-source", "author-change")
  {
    hide Closed, WellOrdered, ObserverChained, Before, Legal, NeedsOnly, Does;
    var workflow := b.paths[id].workflow;
    ObservedIsChained(b, id);
    NeedsGoBefore(workflow, run, "inspect-source", "freeze-http-conditions");
    NeedsGoBefore(workflow, run, "freeze-http-conditions", "author-change");
    BeforeTransitive(workflow, run, "inspect-source", "freeze-http-conditions", "author-change");
  }

  /** A run of an observed path that cannot be continued has performed every action of the chain. */
  lemma {:induction false} ObserverActionsPerformed(b: Bundle, id: string, run: seq<Event>, x: nat)
    requires Closed(b) && Observed(b, id) && Legal(b.paths[id].workflow, run) && x < |OBSERVER_CHAIN|
    requires forall e :: !May(b.paths[id].workflow, run, e)
    ensures Performed(b.paths[id].workflow, run, OBSERVER_CHAIN[x].0, OBSERVER_CHAIN[x].1)
    ensures Performed(b.paths[id].workflow, run, "freeze-http-conditions", "verification.freeze-http-conditions/v1")
  {
    hide Closed, WellOrdered, Performed, NeedsOnly, Does, Legal;
    var workflow := b.paths[id].workflow;
    ObservedIsChained(b, id);
    MaximalRunsComplete(workflow, run);
    DoesIsPerformed(workflow, run, OBSERVER_CHAIN[x].0, OBSERVER_CHAIN[x].1);
    DoesIsPerformed(workflow, run, "freeze-http-conditions", "verification.freeze-http-conditions/v1");
  }

  // ---------------------------------------------------------------- admission

  /** An accepted request against an accepted bundle names a path fit to run in the Realm it asks for. */
  lemma {:induction false} AdmissionSound(b: Bundle, q: Request)
    requires Closed(b) && RequestOk(b, q)
    ensures var p, realm := b.paths[q.path], b.realms[q.realm];
            && p.state != Draft
            && p.product == q.product && q.path in b.products[q.product].paths
            && b.products[q.product].lifecycle == p.state
            && q.path in realm.admittedPaths && p.state in realm.admittedStates
            && (forall k :: 0 <= k < |p.entityClasses| ==>
                  && p.entityClasses[k] in b.entities
                  && b.entities[p.entityClasses[k]].state == p.state
                  && q.realm in b.entities[p.entityClasses[k]].allowedRealms)
            && WellOrdered(p.workflow)
  {
    hide WellOrdered, ObserverFits, DeliveryFits, ProfileBound;
    PathFacts(b, q.path);
    var k :| 0 <= k < |b.paths[q.path].supportedRealms| && b.paths[q.path].supportedRealms[k] == q.realm;
    assert RealmAdmits(b, q.path, b.paths[q.path], b.paths[q.path].supportedRealms[k]);
  }

  /** In an accepted bundle, a path can be requested for a Realm exactly when it is no draft and supports the Realm. */
  lemma {:induction false} RequestableExactly(b: Bundle, q: Request)
    requires Closed(b)
    ensures RequestOk(b, q) <==>
              && q.path in b.paths && b.paths[q.path].product == q.product
              && b.paths[q.path].state != Draft && q.realm in b.paths[q.path].supportedRealms
  {
    hide WellOrdered, ObserverFits, DeliveryFits, ProfileBound, EntityFits;
    if q.path in b.paths && q.realm in b.paths[q.path].supportedRealms {
      PathFacts(b, q.path);
      var k :| 0 <= k < |b.paths[q.path].supportedRealms| && b.paths[q.path].supportedRealms[k] == q.realm;
      assert RealmAdmits(b, q.path, b.paths[q.path], b.paths[q.path].supportedRealms[k]);
    }
  }
}
