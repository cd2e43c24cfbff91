/**
  HTTP probe evidence: the signed subject, the result document, and what the
  validator requires of the two together. Times are microseconds.
*/
module ProbeModel {
  import opened ProbeOrdering

  datatype Option<+T> = None | Some(value: T)

  const MILLISECOND := 1000
  const SECOND := 1000 * MILLISECOND

  // ---------------------------------------------------------------- documents

  datatype Verdict = Pass | Fail | Inconclusive | ProbeError

  datatype TargetError = EmptyBackendSet | ExcessBackendSet | InvalidBackend | MixedImage | TargetDrift

  datatype BackendError = Connection | Deadline | Drift | Invalid | RunDeadlineHit | Verifier

  datatype Termination = ConditionSatisfied | StoppedOnProbeError | AttemptsExhausted | RunDeadline

  datatype Backend = Backend(
    endpointSliceName: string,
    endpointSliceUid: string,
    endpointSliceResourceVersion: string,
    endpointSliceDigest: string,
    endpointSliceServiceName: string,
    endpointSliceManagedBy: string,
    addressType: string,
    address: string,
    targetRefKind: Option<string>,
    targetRefName: Option<string>,
    targetRefUid: Option<string>,
    podNamespace: Option<string>,
    podName: Option<string>,
    podUid: Option<string>,
    podResourceVersion: Option<string>,
    podSpecDigest: Option<string>,
    podStatusDigest: Option<string>,
    podIp: Option<string>,
    podOwnerKind: Option<string>,
    podOwnerName: Option<string>,
    podOwnerUid: Option<string>,
    replicaSetName: Option<string>,
    replicaSetUid: Option<string>,
    replicaSetResourceVersion: Option<string>,
    replicaSetOwnerKind: Option<string>,
    replicaSetOwnerName: Option<string>,
    replicaSetOwnerUid: Option<string>,
    deploymentName: Option<string>,
    deploymentUid: Option<string>,
    deploymentResourceVersion: Option<string>,
    renderedPodTemplateDigest: Option<string>,
    ownershipWorkOrderId: Option<string>,
    selectorMatches: bool,
    ready: bool,
    serving: bool,
    terminating: bool,
    hostNetwork: bool,
    containerName: Option<string>,
    containersServingPort: int,
    containerPort: Option<int>,
    serviceTargetPort: Option<int>,
    containerReady: bool,
    imageId: Option<string>,
    imageDigest: Option<string>
  )

  datatype Slice = Slice(name: string, uid: string, resourceVersion: string, digest: string,
                         serviceName: string, managedBy: string)

  datatype Target = Target(
    namespaceUid: string,
    namespaceResourceVersion: string,
    serviceUid: string,
    serviceResourceVersion: string,
    serviceRoutingSpecDigest: string,
    networkPolicySetDigest: string,
    endpointSliceSetDigest: string,
    backendSetDigest: string,
    observedBackendCount: int,
    backends: seq<Backend>
  )

  datatype OracleEntry = OracleEntry(key: string, expectedType: string, expectedValueDigest: string,
                                     observedPresent: bool, observedType: Option<string>,
                                     observedValueDigest: Option<string>)

  datatype Oracle =
    | StatusOracle(expectedStatus: int, observedStatus: Option<int>)
    | TextOracle(expectedByteDigest: string, observedByteDigest: Option<string>)
    | JsonOracle(entries: seq<OracleEntry>)

  // The frozen expectation of a condition; a JSON subset is kept in its canonical form.
  datatype Expected =
    | StatusOnly
    | ExactText(mediaType: string, text: string)
    | JsonSubset(mediaType: string, subset: string)

  datatype BackendResult = BackendResult(
    podUid: string,
    state: Verdict,
    durationMs: int,
    status: Option<int>,
    mediaType: Option<string>,
    responseBytes: int,
    responseTruncated: bool,
    contentSha256: Option<string>,
    errorCode: Option<BackendError>,
    oracle: Oracle
  )

  datatype Attempt = Attempt(
    attemptId: string,
    ordinal: int,
    startedAt: int,
    completedAt: int,
    durationMs: int,
    preTarget: Target,
    targetErrorCode: Option<TargetError>,
    backendResults: seq<BackendResult>,
    postTarget: Target,
    state: Verdict
  )

  datatype PathId = RuntimeHealth | RuntimeReadiness | RequestContract

  datatype ConditionId = HealthRun | ReadinessRun | AcceptanceRun(ordinal: int)

  datatype Condition = Condition(
    id: ConditionId,
    pathId: PathId,
    probe: string,
    expectationOrdinal: int,
    path: string,
    expectationDigest: string,
    attempts: seq<Attempt>,
    achieved: int,
    state: Verdict,
    termination: Termination
  )

  datatype PathResult = PathResult(id: PathId, state: Verdict, satisfied: bool)

  datatype ResultDoc = ResultDoc(
    workOrderId: string,
    runId: string,
    conditionRuns: seq<Condition>,
    pathResults: seq<PathResult>,
    aggregateState: Verdict,
    satisfied: bool,
    startedAt: int,
    completedAt: int,
    expiresAt: int
  )

  datatype Realm = Realm(name: string, namespaceName: string, namespaceUid: string, namespaceResourceVersion: string)
  datatype Service = Service(name: string, uid: string, resourceVersion: string, routingSpecDigest: string,
                             dnsName: string, port: int)
  datatype Delivery = Delivery(observedAt: int, expiresAt: int, imageDigest: string,
                               renderedPodTemplateDigest: string, networkPolicySetDigest: string)
  datatype Acceptance = Acceptance(ordinal: int, path: string, expected: Expected)

  datatype Subject = Subject(
    workOrderId: string,
    runId: string,
    realm: Realm,
    service: Service,
    delivery: Delivery,
    acceptance: seq<Acceptance>,
    acceptanceDigest: string,
    issuedAt: int,
    deadline: int
  )

  // What the validator takes from outside: digests, signatures and trust joins, and the standard library.
  datatype Host = Host(
    trusted: Subject -> bool,            // bundle, profile, signature, envelope and identity joins, subject digest
    bound: (Subject, ResultDoc) -> bool, // embedded subject, result signature, evidence digest
    wellFormed: Expected -> bool,
    digestAcceptance: seq<Acceptance> -> string,
    digestExpected: Expected -> string,
    digestText: string -> string,
    digestSlices: seq<Slice> -> string,
    digestBackends: seq<Backend> -> string,
    utf8Length: string -> int,
    entriesOf: string -> seq<OracleEntry>,
    addressVersion: string -> Option<int>, // ipaddress.ip_address, None for ValueError
    milliseconds: int -> int // int(total_seconds() * 1000), floating-point product included
  )

  // ---------------------------------------------------------------- reduction of verdicts

  // The first of probe-error, fail, inconclusive and pass that occurs; inconclusive for no values at all.
  function StateFrom(values: seq<Verdict>): Verdict {
    if values == [] then Inconclusive
    else if ProbeError in values then ProbeError
    else if Fail in values then Fail
    else if Inconclusive in values then Inconclusive
    else Pass
  }

  // ---------------------------------------------------------------- one backend

  function BackendState(h: Host, r: BackendResult, expected: Expected): Verdict {
    if r.errorCode.Some? then (if r.errorCode.value.RunDeadlineHit? then Inconclusive else ProbeError)
    else if r.status != Some(200) || r.responseBytes > 65536 || r.responseTruncated then Fail
    else
      match expected
      case StatusOnly =>
        if r.oracle == StatusOracle(200, Some(200)) then Pass else Fail
      case ExactText(media, text) =>
        if r.mediaType != Some(media) then Fail
        else if r.contentSha256 != Some(h.digestText(text)) || r.responseBytes != h.utf8Length(text) then Fail
        else if r.oracle == TextOracle(h.digestText(text), Some(h.digestText(text))) then Pass else Fail
      case JsonSubset(media, subset) =>
        if r.mediaType != Some(media) then Fail
        else if r.contentSha256.None? || r.responseBytes == 0 then Fail
        else if r.oracle == JsonOracle(h.entriesOf(subset)) then Pass else Fail
  }

  // ---------------------------------------------------------------- one target snapshot

  function OrderKey(b: Backend): seq<string> {
    if b.podUid.Some? then ["pod", b.podUid.value, b.endpointSliceUid, b.address]
    else ["endpoint", b.endpointSliceUid, b.address, if b.targetRefUid.Some? then b.targetRefUid.value else ""]
  }

  function OrderKeys(bs: seq<Backend>): (keys: seq<seq<string>>)
    ensures |keys| == |bs|
    ensures forall k :: 0 <= k < |bs| ==> keys[k] == OrderKey(bs[k])
  {
    if bs == [] then [] else [OrderKey(bs[0])] + OrderKeys(bs[1..])
  }

  function PodUids(bs: seq<Backend>): seq<string> {
    if bs == [] then []
    else (if bs[0].podUid.Some? then [bs[0].podUid.value] else []) + PodUids(bs[1..])
  }

  function SliceOf(b: Backend): Slice {
    Slice(b.endpointSliceName, b.endpointSliceUid, b.endpointSliceResourceVersion, b.endpointSliceDigest,
          b.endpointSliceServiceName, b.endpointSliceManagedBy)
  }

  predicate Identified(b: Backend) {
    && b.targetRefName.Some? && b.targetRefUid.Some?
    && b.podNamespace.Some? && b.podName.Some? && b.podUid.Some? && b.podOwnerName.Some? && b.podOwnerUid.Some?
    && b.replicaSetName.Some? && b.replicaSetUid.Some?
    && b.replicaSetOwnerName.Some? && b.replicaSetOwnerUid.Some?
    && b.deploymentName.Some? && b.deploymentUid.Some?
    && b.containerName.Some?
  }

  predicate Joined(h: Host, s: Subject, b: Backend) {
    && Some(b.address) == b.podIp
    && b.addressType == (if h.addressVersion(b.address) == Some(4) then "IPv4" else "IPv6")
    && b.endpointSliceServiceName == s.service.name
    && b.endpointSliceManagedBy == "endpointslice-controller.k8s.io"
    && b.targetRefKind == Some("Pod")
    && b.targetRefName == b.podName
    && b.targetRefUid == b.podUid
    && b.podNamespace == Some(s.realm.namespaceName)
    && b.podResourceVersion.Some? && b.podSpecDigest.Some? && b.podStatusDigest.Some?
    && b.podOwnerKind == Some("ReplicaSet")
    && b.podOwnerName == b.replicaSetName
    && b.podOwnerUid == b.replicaSetUid
    && b.replicaSetResourceVersion.Some?
    && b.replicaSetOwnerKind == Some("Deployment")
    && b.replicaSetOwnerName == b.deploymentName
    && b.replicaSetOwnerUid == b.deploymentUid
    && b.deploymentName == Some(s.service.name)
    && b.deploymentResourceVersion.Some?
    && b.renderedPodTemplateDigest == Some(s.delivery.renderedPodTemplateDigest)
    && b.ownershipWorkOrderId == Some(s.workOrderId)
    && b.selectorMatches && b.ready && b.serving && !b.terminating && !b.hostNetwork
    && b.containersServingPort == 1
    && b.containerPort == Some(s.service.port)
    && b.serviceTargetPort == Some(s.service.port)
    && b.containerReady
  }

  predicate ImageIdMatches(b: Backend) {
    && b.imageId.Some? && b.imageDigest.Some?
    && (b.imageId.value == "containerd://" + b.imageDigest.value
        || b.imageId.value == "docker-pullable://" + b.imageDigest.value)
  }

  // The classification after looking at one backend: the last failing check wins.
  function BackendCheck(h: Host, s: Subject, b: Backend, before: Option<TargetError>): Option<TargetError> {
    if !ImageIdMatches(b) || b.imageDigest.None? then Some(InvalidBackend)
    else if b.imageDigest.value != s.delivery.imageDigest then Some(MixedImage)
    else if !Identified(b) || h.addressVersion(b.address).None? || !Joined(h, s, b) then Some(InvalidBackend)
    else before
  }

  function BackendChecks(h: Host, s: Subject, bs: seq<Backend>, before: Option<TargetError>): Option<TargetError> {
    if bs == [] then before
    else BackendCheck(h, s, bs[|bs| - 1], BackendChecks(h, s, bs[..|bs| - 1], before))
  }

  // The classification of everything but the single backends.
  function SetCheck(s: Subject, t: Target): Option<TargetError> {
    var pods := PodUids(t.backends);
    if |pods| != |t.backends| || !Increasing(StringLess, pods)
       || !Increasing(TupleLess, OrderKeys(t.backends)) then Some(InvalidBackend)
    else if t.backends == [] then Some(EmptyBackendSet)
    else if |t.backends| > 3 then Some(ExcessBackendSet)
    else if t.networkPolicySetDigest != s.delivery.networkPolicySetDigest
            || t.serviceUid != s.service.uid || t.serviceResourceVersion != s.service.resourceVersion
            || t.serviceRoutingSpecDigest != s.service.routingSpecDigest
            || t.namespaceUid != s.realm.namespaceUid
            || t.namespaceResourceVersion != s.realm.namespaceResourceVersion then Some(InvalidBackend)
    else None
  }

  function Classify(h: Host, s: Subject, t: Target): Option<TargetError> {
    BackendChecks(h, s, t.backends, SetCheck(s, t))
  }

  // Backends that name the same EndpointSlice describe it alike.
  predicate SlicesAgree(bs: seq<Backend>) {
    forall j, k :: 0 <= j < k < |bs| && bs[j].endpointSliceUid == bs[k].endpointSliceUid ==>
                     SliceOf(bs[j]) == SliceOf(bs[k])
  }

  function SliceUids(bs: seq<Backend>): seq<string> {
    if bs == [] then [] else SliceUids(bs[..|bs| - 1]) + [bs[|bs| - 1].endpointSliceUid]
  }

  // The first description of every EndpointSlice.
  function SliceMap(bs: seq<Backend>): map<string, Slice> {
    if bs == [] then map[]
    else
      var m := SliceMap(bs[..|bs| - 1]);
      var b := bs[|bs| - 1];
      if b.endpointSliceUid in m then m else m[b.endpointSliceUid := SliceOf(b)]
  }

  function SlicesByUid(uids: seq<string>, m: map<string, Slice>): seq<Slice> {
    if uids == [] then []
    else (if uids[0] in m then [m[uids[0]]] else []) + SlicesByUid(uids[1..], m)
  }

  function SliceList(bs: seq<Backend>): seq<Slice> {
    SlicesByUid(SortedSet(StringLess, SliceUids(bs)), SliceMap(bs))
  }

  // The snapshot does not contradict itself; otherwise the whole document is rejected.
  predicate Coherent(h: Host, t: Target) {
    && t.observedBackendCount == |t.backends|
    && SlicesAgree(t.backends)
    && t.endpointSliceSetDigest == h.digestSlices(SliceList(t.backends))
    && t.backendSetDigest == h.digestBackends(t.backends)
  }

  // ---------------------------------------------------------------- one attempt

  function DurationMs(h: Host, a: Attempt): int {
    h.milliseconds(a.completedAt - a.startedAt)
  }

  function AttemptError(h: Host, s: Subject, pre: Target, post: Target): Option<TargetError> {
    if pre != post then Some(TargetDrift) else Classify(h, s, pre)
  }

  function BackendStates(h: Host, results: seq<BackendResult>, expected: Expected): (vs: seq<Verdict>)
    ensures |vs| == |results|
    ensures forall k :: 0 <= k < |results| ==> vs[k] == BackendState(h, results[k], expected)
  {
    if results == [] then []
    else [BackendState(h, results[0], expected)] + BackendStates(h, results[1..], expected)
  }

  function BatchState(h: Host, expected: Expected, error: Option<TargetError>, results: seq<BackendResult>): Verdict {
    if error.Some? then ProbeError else StateFrom(BackendStates(h, results, expected))
  }

  predicate ResultsMatch(h: Host, expected: Expected, a: Attempt) {
    if a.targetErrorCode.Some? then a.backendResults == []
    else
      && |a.backendResults| == |PodUids(a.preTarget.backends)|
      && forall k :: 0 <= k < |a.backendResults| ==>
                       && a.backendResults[k].podUid == PodUids(a.preTarget.backends)[k]
                       && a.backendResults[k].durationMs <= 5000
                       && a.backendResults[k].durationMs <= a.durationMs
                       && a.backendResults[k].state == BackendState(h, a.backendResults[k], expected)
  }

  // The attempt by itself, whatever its place in the run.
  predicate AttemptOk(h: Host, s: Subject, expected: Expected, a: Attempt) {
    && a.durationMs == DurationMs(h, a)
    && s.issuedAt <= a.startedAt < a.completedAt <= s.deadline
    && a.durationMs <= 30000
    && Coherent(h, a.preTarget) && Coherent(h, a.postTarget)
    && a.targetErrorCode == AttemptError(h, s, a.preTarget, a.postTarget)
    && ResultsMatch(h, expected, a)
    && a.state == BatchState(h, expected, a.targetErrorCode, a.backendResults)
  }

  // ---------------------------------------------------------------- one condition

  function States(attempts: seq<Attempt>): (vs: seq<Verdict>)
    ensures |vs| == |attempts|
    ensures forall k :: 0 <= k < |attempts| ==> vs[k] == attempts[k].state
  {
    if attempts == [] then [] else States(attempts[..|attempts| - 1]) + [attempts[|attempts| - 1].state]
  }

  // Passes at the end of the list.
  function Streak(vs: seq<Verdict>): nat {
    if vs == [] || vs[|vs| - 1] != Pass then 0 else Streak(vs[..|vs| - 1]) + 1
  }

  function Max(a: int, b: int): int { if a > b then a else b }
  function Min(a: int, b: int): int { if a < b then a else b }

  // The best streak so far, capped at three.
  function Achieved(vs: seq<Verdict>): int {
    if vs == [] then 0 else Max(Achieved(vs[..|vs| - 1]), Min(Streak(vs), 3))
  }

  function NonPass(vs: seq<Verdict>): seq<Verdict> {
    if vs == [] then []
    else NonPass(vs[..|vs| - 1]) + (if vs[|vs| - 1] != Pass then [vs[|vs| - 1]] else [])
  }

  function FinalState(vs: seq<Verdict>): Verdict {
    if Achieved(vs) == 3 then Pass
    else if NonPass(vs) != [] then StateFrom(NonPass(vs))
    else Inconclusive
  }

  function TerminationOf(final: Verdict, attempts: nat): Termination {
    if final == Pass then ConditionSatisfied
    else if final == ProbeError then StoppedOnProbeError
    else if attempts == 5 then AttemptsExhausted
    else RunDeadline
  }

  // Attempts are numbered, a second apart, and stop at the third pass in a row.
  predicate Paced(attempts: seq<Attempt>) {
    && (forall k :: 0 <= k < |attempts| ==> attempts[k].ordinal == k + 1)
    && (forall j, k :: 0 <= j < |attempts| && j < k < |attempts| && k == j + 1 ==>
                       attempts[k].startedAt >= attempts[j].completedAt + SECOND)
    && (forall n :: 0 < n < |attempts| ==> Achieved(States(attempts[..n])) != 3)
  }

  predicate StopsOnProbeError(vs: seq<Verdict>) {
    forall k :: 0 <= k < |vs| - 1 ==> vs[k] != ProbeError
  }

  datatype Descriptor = Descriptor(id: ConditionId, pathId: PathId, probe: string, ordinal: int, path: string,
                                   expected: Expected)

  function FixedDescriptors(): seq<Descriptor> {
    [Descriptor(HealthRun, RuntimeHealth, "http.healthz/v1", 0, "/healthz", StatusOnly),
     Descriptor(ReadinessRun, RuntimeReadiness, "http.readyz/v1", 0, "/readyz", StatusOnly)]
  }

  function Descriptors(acceptance: seq<Acceptance>): (ds: seq<Descriptor>)
    ensures |ds| == |acceptance| + 2
  {
    if acceptance == [] then FixedDescriptors()
    else
      var item := acceptance[|acceptance| - 1];
      Descriptors(acceptance[..|acceptance| - 1])
      + [Descriptor(AcceptanceRun(item.ordinal), RequestContract, "http.request-contract/v1",
                    item.ordinal, item.path, item.expected)]
  }

  predicate Matches(h: Host, d: Descriptor, c: Condition) {
    && c.id == d.id && c.pathId == d.pathId && c.probe == d.probe
    && c.expectationOrdinal == d.ordinal && c.path == d.path
    && c.expectationDigest == h.digestExpected(d.expected)
  }

  predicate ConditionOk(h: Host, s: Subject, d: Descriptor, c: Condition) {
    && Matches(h, d, c)
    && (forall k :: 0 <= k < |c.attempts| ==> AttemptOk(h, s, d.expected, c.attempts[k]))
    && Paced(c.attempts)
    && StopsOnProbeError(States(c.attempts))
    && c.state == FinalState(States(c.attempts))
    && c.achieved == Achieved(States(c.attempts))
    && c.termination == TerminationOf(c.state, |c.attempts|)
  }

  // ---------------------------------------------------------------- the whole run

  // All attempts, in the order of the document.
  function Timeline(cs: seq<Condition>): seq<Attempt> {
    if cs == [] then [] else Timeline(cs[..|cs| - 1]) + cs[|cs| - 1].attempts
  }

  predicate DeadlineReached(cs: seq<Condition>) {
    exists k :: 0 <= k < |cs| && cs[k].termination == RunDeadline
  }

  // The attempts of a condition continue what was recorded before it.
  predicate Continues(before: seq<Attempt>, attempts: seq<Attempt>) {
    && (forall j, k :: 0 <= j < |before| && 0 <= k < |attempts| ==> before[j].attemptId != attempts[k].attemptId)
    && (forall j, k :: 0 <= j < k < |attempts| ==> attempts[j].attemptId != attempts[k].attemptId)
    && (before != [] && attempts != [] ==> before[|before| - 1].completedAt <= attempts[0].startedAt)
  }

  predicate RunsOk(h: Host, s: Subject, ds: seq<Descriptor>, cs: seq<Condition>)
    requires |ds| == |cs|
  {
    cs == [] ||
    (var n := |cs| - 1;
     && RunsOk(h, s, ds[..n], cs[..n])
     && ConditionOk(h, s, ds[n], cs[n])
     && (DeadlineReached(cs[..n]) ==> cs[n].attempts == [])
     && Continues(Timeline(cs[..n]), cs[n].attempts))
  }

  // The final states of the conditions of a path.
  function PathStates(cs: seq<Condition>, id: PathId): seq<Verdict> {
    if cs == [] then []
    else PathStates(cs[..|cs| - 1], id)
         + (if cs[|cs| - 1].pathId == id then [cs[|cs| - 1].state] else [])
  }

  function PathVerdict(cs: seq<Condition>, id: PathId): PathResult {
    var v := StateFrom(PathStates(cs, id));
    PathResult(id, v, v == Pass)
  }

  function Aggregate(cs: seq<Condition>): Verdict {
    StateFrom([PathVerdict(cs, RuntimeHealth).state, PathVerdict(cs, RuntimeReadiness).state,
               PathVerdict(cs, RequestContract).state])
  }

  function StartOf(s: Subject, cs: seq<Condition>): int {
    var all := Timeline(cs);
    if all == [] then s.issuedAt else all[0].startedAt
  }

  function CompletionOf(s: Subject, cs: seq<Condition>): int {
    var all := Timeline(cs);
    if DeadlineReached(cs) || all == [] then s.deadline else all[|all| - 1].completedAt
  }

  predicate AcceptanceOk(h: Host, acceptance: seq<Acceptance>) {
    && (forall j, k :: 0 <= j < k < |acceptance| ==> acceptance[j].path != acceptance[k].path)
    && (forall k :: 0 <= k < |acceptance| ==> acceptance[k].ordinal == k + 1)
    && (forall k :: 0 <= k < |acceptance| ==> h.wellFormed(acceptance[k].expected))
  }

  predicate SubjectOk(h: Host, s: Subject) {
    && h.trusted(s)
    && AcceptanceOk(h, s.acceptance)
    && s.acceptanceDigest == h.digestAcceptance(s.acceptance)
    && s.delivery.observedAt <= s.issuedAt <= s.delivery.observedAt + 300 * SECOND
    && s.issuedAt < s.deadline <= s.issuedAt + 240 * SECOND
    && s.deadline <= s.delivery.expiresAt
    && s.realm.name == s.realm.namespaceName
    && s.service.dnsName == s.service.name + "." + s.realm.namespaceName + ".svc"
    && s.realm.name == "preview-" + s.workOrderId
  }

  predicate SummaryOk(s: Subject, r: ResultDoc) {
    var cs := r.conditionRuns;
    && r.pathResults == [PathVerdict(cs, RuntimeHealth), PathVerdict(cs, RuntimeReadiness),
                         PathVerdict(cs, RequestContract)]
    && r.aggregateState == Aggregate(cs)
    && r.satisfied == (Aggregate(cs) == Pass)
    && r.startedAt == StartOf(s, cs)
    && r.completedAt == CompletionOf(s, cs)
    && s.issuedAt <= r.startedAt < r.completedAt <= s.deadline < r.expiresAt <= s.delivery.expiresAt
  }

  predicate Accepted(h: Host, s: Subject, r: ResultDoc) {
    && SubjectOk(h, s)
    && h.bound(s, r)
    && r.workOrderId == s.workOrderId && r.runId == s.runId
    && |r.conditionRuns| == |s.acceptance| + 2
    && RunsOk(h, s, Descriptors(s.acceptance), r.conditionRuns)
    && SummaryOk(s, r)
  }
}
