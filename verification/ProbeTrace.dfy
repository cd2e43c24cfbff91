/**
  What an accepted document is bound to: the work order, the delivered image, the frozen conditions and the
  times of the delivery it speaks about.
*/
module ProbeTrace {
  import opened ProbeOrdering
  import opened ProbeModel
  import opened ProbeValidator
  import opened ProbeTheorems
  import opened ProbeEvidence
  import opened ProbeVerdicts

  /** The names of an accepted subject are derived from its work order, and its acceptance entries are distinct. */
  lemma {:induction false} SubjectIsDerived(h: Host, s: Subject)
    requires SubjectOk(h, s)
    ensures s.realm.name == s.realm.namespaceName == "preview-" + s.workOrderId
    ensures s.service.dnsName == s.service.name + "." + ("preview-" + s.workOrderId) + ".svc"
    ensures forall k :: 0 <= k < |s.acceptance| ==>
                          s.acceptance[k].ordinal == k + 1 && h.wellFormed(s.acceptance[k].expected)
    ensures forall j, k :: 0 <= j < k < |s.acceptance| ==> s.acceptance[j].path != s.acceptance[k].path
    ensures s.acceptanceDigest == h.digestAcceptance(s.acceptance) && h.trusted(s)
  {
  }

  /** The conditions of an accepted document are the two fixed ones and the frozen acceptance entries, in order. */
  lemma {:induction false} ConditionsAreFrozen(h: Host, s: Subject, r: ResultDoc, k: nat)
    requires Accepted(h, s, r) && k < |r.conditionRuns|
    ensures r.workOrderId == s.workOrderId && r.runId == s.runId && h.bound(s, r)
    ensures |r.conditionRuns| == |s.acceptance| + 2
    ensures var c := r.conditionRuns[k];
            if k == 0 then
              && c.id == HealthRun && c.pathId == RuntimeHealth && c.probe == "http.healthz/v1"
              && c.expectationOrdinal == 0 && c.path == "/healthz"
              && c.expectationDigest == h.digestExpected(StatusOnly)
            else if k == 1 then
              && c.id == ReadinessRun && c.pathId == RuntimeReadiness && c.probe == "http.readyz/v1"
              && c.expectationOrdinal == 0 && c.path == "/readyz"
              && c.expectationDigest == h.digestExpected(StatusOnly)
            else
              && c.id == AcceptanceRun(k - 1) && c.pathId == RequestContract && c.probe == "http.request-contract/v1"
              && c.expectationOrdinal == k - 1 && c.path == s.acceptance[k - 2].path
              && c.expectationDigest == h.digestExpected(s.acceptance[k - 2].expected)
  {
    hide RunsOk, SummaryOk, ConditionOk, Descriptors;
    var d, c := Descriptors(s.acceptance)[k], r.conditionRuns[k];
    ConditionAt(h, s, Descriptors(s.acceptance), r.conditionRuns, k);
    ExpandedAt(s.acceptance, k);
    ConditionMatches(h, s, d, c);
  }

  lemma {:induction false} ConditionMatches(h: Host, s: Subject, d: Descriptor, c: Condition)
    requires ConditionOk(h, s, d, c)
    ensures c.id == d.id && c.pathId == d.pathId && c.probe == d.probe
    ensures c.expectationOrdinal == d.ordinal && c.path == d.path
    ensures c.expectationDigest == h.digestExpected(d.expected)
  {
    hide AttemptOk, Paced, States, FinalState;
  }

  // Every descriptor in full.
  lemma {:induction false} ExpandedAt(acceptance: seq<Acceptance>, k: nat)
    requires k < |acceptance| + 2
    ensures Descriptors(acceptance)[k] ==
            if k == 0 then Descriptor(HealthRun, RuntimeHealth, "http.healthz/v1", 0, "/healthz", StatusOnly)
            else if k == 1 then Descriptor(ReadinessRun, RuntimeReadiness, "http.readyz/v1", 0, "/readyz", StatusOnly)
            else
              var item := acceptance[k - 2];
              Descriptor(AcceptanceRun(item.ordinal), RequestContract, "http.request-contract/v1", item.ordinal,
                         item.path, item.expected)
    decreases |acceptance|
  {
    if acceptance != [] && k < |acceptance| + 1 {
      ExpandedAt(acceptance[..|acceptance| - 1], k);
    }
  }

  // The attempt belongs to the document.
  predicate AttemptIn(r: ResultDoc, k: nat, j: nat) {
    k < |r.conditionRuns| && j < |r.conditionRuns[k].attempts|
  }

  lemma {:induction false} AttemptAt(h: Host, s: Subject, r: ResultDoc, k: nat, j: nat)
    requires Accepted(h, s, r) && AttemptIn(r, k, j)
    ensures k < |s.acceptance| + 2
    ensures AttemptOk(h, s, Descriptors(s.acceptance)[k].expected, r.conditionRuns[k].attempts[j])
  {
    hide RunsOk, SummaryOk, SubjectOk, AttemptOk, Paced, Matches;
    ConditionAt(h, s, Descriptors(s.acceptance), r.conditionRuns, k);
  }

  /** Every attempt falls within nine minutes of the delivery observation, and the result expires with the delivery. */
  lemma {:induction false} EvidenceIsFresh(h: Host, s: Subject, r: ResultDoc, k: nat, j: nat)
    requires Accepted(h, s, r) && AttemptIn(r, k, j)
    ensures var a := r.conditionRuns[k].attempts[j];
            && s.delivery.observedAt <= a.startedAt < a.completedAt <= s.delivery.observedAt + 540 * SECOND
            && a.completedAt <= s.deadline < r.expiresAt <= s.delivery.expiresAt
            && a.durationMs == h.milliseconds(a.completedAt - a.startedAt) && a.durationMs <= 30000
            && forall m :: 0 <= m < |a.backendResults| ==>
                             a.backendResults[m].durationMs <= 5000 && a.backendResults[m].durationMs <= a.durationMs
  {
    hide RunsOk, AttemptOk, Paced, PathVerdict, Aggregate, StartOf, CompletionOf;
    AttemptAt(h, s, r, k, j);
    AttemptTimes(h, s, Descriptors(s.acceptance)[k].expected, r.conditionRuns[k].attempts[j]);
  }

  lemma {:induction false} AttemptTimes(h: Host, s: Subject, expected: Expected, a: Attempt)
    requires AttemptOk(h, s, expected, a)
    ensures s.issuedAt <= a.startedAt < a.completedAt <= s.deadline
    ensures a.durationMs == h.milliseconds(a.completedAt - a.startedAt) && a.durationMs <= 30000
    ensures forall m :: 0 <= m < |a.backendResults| ==>
                          a.backendResults[m].durationMs <= 5000 && a.backendResults[m].durationMs <= a.durationMs
  {
    hide Coherent, BackendState, BatchState, AttemptError, PodUids;
  }

  // ---------------------------------------------------------------- from a pod back to the work order

  /**
    In an attempt that passes, each backend is a pod of the frozen service in the Realm of the work order: it
    serves alone on the port of the service, is owned through its replica set by the deployment of that name,
    belongs to the work order, and runs the delivered image from the rendered template.
   */
  lemma {:induction false} BackendsAreTraced(h: Host, s: Subject, r: ResultDoc, k: nat, j: nat, m: nat)
    requires Accepted(h, s, r) && AttemptIn(r, k, j)
    requires var a := r.conditionRuns[k].attempts[j]; a.state == Pass && m < |a.preTarget.backends|
    ensures var b := r.conditionRuns[k].attempts[j].preTarget.backends[m];
            // The address is that of a pod which the slice of the service points to.
            && h.addressVersion(b.address).Some? && b.podIp == Some(b.address)
            && (b.addressType == "IPv4" <==> h.addressVersion(b.address) == Some(4))
            && b.addressType in {"IPv4", "IPv6"}
            && b.endpointSliceServiceName == s.service.name
            && b.endpointSliceManagedBy == "endpointslice-controller.k8s.io"
            && b.targetRefKind == Some("Pod")
            && b.targetRefName == b.podName && b.podName.Some?
            && b.targetRefUid == b.podUid && b.podUid.Some?
            // The chain of owners, up to the deployment of the service in the Realm of the work order.
            && b.podNamespace == Some("preview-" + s.workOrderId)
            && b.podOwnerKind == Some("ReplicaSet")
            && b.podOwnerName == b.replicaSetName && b.replicaSetName.Some?
            && b.podOwnerUid == b.replicaSetUid && b.replicaSetUid.Some?
            && b.replicaSetOwnerKind == Some("Deployment")
            && b.replicaSetOwnerName == b.deploymentName == Some(s.service.name)
            && b.replicaSetOwnerUid == b.deploymentUid && b.deploymentUid.Some?
            && b.ownershipWorkOrderId == Some(s.workOrderId)
            // Observed versions, all present.
            && b.podResourceVersion.Some? && b.podSpecDigest.Some? && b.podStatusDigest.Some?
            && b.replicaSetResourceVersion.Some? && b.deploymentResourceVersion.Some?
            // What runs, and where it serves.
            && b.selectorMatches && b.ready && b.serving && !b.terminating && !b.hostNetwork
            && b.containerName.Some? && b.containersServingPort == 1 && b.containerReady
            && b.containerPort == b.serviceTargetPort == Some(s.service.port)
            && b.renderedPodTemplateDigest == Some(s.delivery.renderedPodTemplateDigest)
            && b.imageDigest == Some(s.delivery.imageDigest)
            && b.imageId in {Some("containerd://" + s.delivery.imageDigest),
                             Some("docker-pullable://" + s.delivery.imageDigest)}
  {
    hide RunsOk, SummaryOk, AttemptOk, OracleHolds, Increasing;
    var a := r.conditionRuns[k].attempts[j];
    AttemptAt(h, s, r, k, j);
    AttemptPassExactly(h, s, Descriptors(s.acceptance)[k].expected, a);
    assert Delivered(h, s, a.preTarget.backends[m]);
  }

  /** Its target is that of the frozen service: up to three different pods behind the frozen objects. */
  lemma {:induction false} TargetIsTraced(h: Host, s: Subject, r: ResultDoc, k: nat, j: nat)
    requires Accepted(h, s, r) && AttemptIn(r, k, j) && r.conditionRuns[k].attempts[j].state == Pass
    ensures var a := r.conditionRuns[k].attempts[j];
            var t := a.preTarget;
            && a.postTarget == t
            && t.namespaceUid == s.realm.namespaceUid && t.namespaceResourceVersion == s.realm.namespaceResourceVersion
            && t.serviceUid == s.service.uid && t.serviceResourceVersion == s.service.resourceVersion
            && t.serviceRoutingSpecDigest == s.service.routingSpecDigest
            && t.networkPolicySetDigest == s.delivery.networkPolicySetDigest
            && 1 <= |t.backends| <= 3
            && forall m, n :: 0 <= m < n < |t.backends| ==> t.backends[m].podUid != t.backends[n].podUid
  {
    hide RunsOk, SummaryOk, SubjectOk, AttemptOk, OracleHolds, Increasing, Delivered, PodUids;
    var a := r.conditionRuns[k].attempts[j];
    AttemptAt(h, s, r, k, j);
    AttemptPassExactly(h, s, Descriptors(s.acceptance)[k].expected, a);
    AdmittedPods(h, s, a.preTarget);
    var bs := a.preTarget.backends;
    forall m, n | 0 <= m < n < |bs| ensures bs[m].podUid != bs[n].podUid {
      IncreasingStrings(PodUids(bs), m, n);
    }
  }

  // ---------------------------------------------------------------- snapshots

  // Every backend finds the description of its slice.
  lemma {:induction false} SliceMapMeans(bs: seq<Backend>, b: Backend)
    requires SlicesAgree(bs) && b in bs
    ensures b.endpointSliceUid in SliceMap(bs) && SliceMap(bs)[b.endpointSliceUid] == SliceOf(b)
  {
    hide SliceMap, SlicesAgree, SliceOf;
    var j :| 0 <= j < |bs| && bs[j] == b;
    FirstSlice(bs, b);
  }

  lemma {:induction false} SliceUidsMean(bs: seq<Backend>, u: string)
    ensures u in SliceUids(bs) <==> exists b :: b in bs && b.endpointSliceUid == u
  {
    if bs != [] {
      var n := |bs| - 1;
      SliceUidsMean(bs[..n], u);
      assert bs == bs[..n] + [bs[n]];
    }
  }

  lemma {:induction false} SlicesOfUids(uids: seq<string>, m: map<string, Slice>)
    requires forall u :: u in uids ==> u in m
    ensures |SlicesByUid(uids, m)| == |uids|
    ensures forall k :: 0 <= k < |uids| ==> SlicesByUid(uids, m)[k] == m[uids[k]]
  {
    if uids != [] {
      SlicesOfUids(uids[1..], m);
    }
  }

  /** The slices that a snapshot's digest is taken of: each one of its backends' once, in the order of their uids. */
  lemma {:induction false} SliceListExactly(bs: seq<Backend>)
    requires SlicesAgree(bs)
    ensures var slices := SliceList(bs);
            && (forall x :: x in slices <==> exists b :: b in bs && SliceOf(b) == x)
            && (forall j, k :: 0 <= j < k < |slices| ==> StringLess(slices[j].uid, slices[k].uid))
  {
    hide SortedSet, SliceMap, SliceUids, SlicesByUid, SlicesAgree;
    var uids, m := SortedSet(StringLess, SliceUids(bs)), SliceMap(bs);
    BothAreOrders();
    SortedSetIncreases(StringLess, SliceUids(bs));
    forall u | u in uids ensures u in m && exists b :: b in bs && b.endpointSliceUid == u && m[u] == SliceOf(b) {
      SliceUidsMean(bs, u);
      var b :| b in bs && b.endpointSliceUid == u;
      SliceMapMeans(bs, b);
    }
    SlicesOfUids(uids, m);
    var slices := SliceList(bs);
    forall k | 0 <= k < |uids| ensures slices[k].uid == uids[k] && exists b :: b in bs && SliceOf(b) == slices[k] {
      assert uids[k] in uids;
    }
    forall b | b in bs ensures SliceOf(b) in slices {
      SliceUidsMean(bs, b.endpointSliceUid);
      SliceMapMeans(bs, b);
      var k :| 0 <= k < |uids| && uids[k] == b.endpointSliceUid;
      assert slices[k] == SliceOf(b);
    }
    forall j, k | 0 <= j < k < |slices| ensures StringLess(slices[j].uid, slices[k].uid) {
      IncreasingStrings(uids, j, k);
    }
  }

  /** Both snapshots of every attempt, whatever its verdict, count and digest what they show. */
  lemma {:induction false} SnapshotsAreTrue(h: Host, s: Subject, r: ResultDoc, k: nat, j: nat)
    requires Accepted(h, s, r) && AttemptIn(r, k, j)
    ensures var a := r.conditionRuns[k].attempts[j];
            forall t :: t in {a.preTarget, a.postTarget} ==>
              && t.observedBackendCount == |t.backends|
              && t.backendSetDigest == h.digestBackends(t.backends)
              && t.endpointSliceSetDigest == h.digestSlices(SliceList(t.backends))
              && forall m, n :: 0 <= m < n < |t.backends|
                                && t.backends[m].endpointSliceUid == t.backends[n].endpointSliceUid ==>
                                  SliceOf(t.backends[m]) == SliceOf(t.backends[n])
  {
    hide RunsOk, SummaryOk, SubjectOk, AttemptError, ResultsMatch, BatchState, SliceList;
    AttemptAt(h, s, r, k, j);
  }
}
