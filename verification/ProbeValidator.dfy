/**
  The validator as the Python module runs it: loops over conditions, attempts and
  backends with running streaks, clocks and a deadline latch. Each method returns
  false where the source raises, and is proved against ProbeModel.
*/
module ProbeValidator {
  import opened ProbeOrdering
  import opened ProbeModel

  // The checks that concern the snapshot as a whole.
  method CheckSet(s: Subject, t: Target) returns (error: Option<TargetError>)
    ensures error == SetCheck(s, t)
  {
    error := None;
    if t.namespaceUid != s.realm.namespaceUid || t.namespaceResourceVersion != s.realm.namespaceResourceVersion {
      error := Some(InvalidBackend);
    }
    if t.serviceUid != s.service.uid || t.serviceResourceVersion != s.service.resourceVersion
       || t.serviceRoutingSpecDigest != s.service.routingSpecDigest {
      error := Some(InvalidBackend);
    }
    if t.networkPolicySetDigest != s.delivery.networkPolicySetDigest {
      error := Some(InvalidBackend);
    }
    if t.backends == [] {
      error := Some(EmptyBackendSet);
    } else if |t.backends| > 3 {
      error := Some(ExcessBackendSet);
    }
    BothAreOrders();
    var keys := OrderKeys(t.backends);
    SortedSetFixpoint(TupleLess, keys);
    if keys != SortedSet(TupleLess, keys) {
      error := Some(InvalidBackend);
    }
    var podUids := PodUids(t.backends);
    SortedSetFixpoint(StringLess, podUids);
    if |podUids| != |t.backends| || podUids != SortedSet(StringLess, podUids) {
      error := Some(InvalidBackend);
    }
  }

  // Whether the snapshot is coherent, and then its pods and the classification of its last failing check.
  method ValidateTarget(h: Host, s: Subject, t: Target)
    returns (ok: bool, podUids: seq<string>, error: Option<TargetError>)
    ensures ok <==> Coherent(h, t)
    ensures ok ==> podUids == PodUids(t.backends) && error == Classify(h, s, t)
  {
    if t.observedBackendCount != |t.backends| {
      return false, [], None;
    }
    error := CheckSet(s, t);
    podUids := PodUids(t.backends);
    var backends := t.backends;
    var endpointSlices: map<string, Slice> := map[];
    var uids: seq<string> := [];
    var n := 0;
    while n < |backends|
      invariant 0 <= n <= |backends|
      invariant error == BackendChecks(h, s, backends[..n], SetCheck(s, t))
      invariant endpointSlices == SliceMap(backends[..n])
      invariant uids == SliceUids(backends[..n])
      invariant SlicesAgree(backends[..n])
    {
      var b := backends[n];
      assert backends[..n + 1][..n] == backends[..n];
      error := CheckBackend(h, s, b, error);
      OneMoreSlice(backends, n);
      var projection := SliceOf(b);
      if b.endpointSliceUid !in endpointSlices {
        endpointSlices := endpointSlices[b.endpointSliceUid := projection];
      }
      uids := uids + [b.endpointSliceUid];
      if endpointSlices[b.endpointSliceUid] != projection {
        return false, [], None;
      }
      n := n + 1;
    }
    assert backends[..n] == backends;
    var projections := SlicesByUid(SortedSet(StringLess, uids), endpointSlices);
    ok := t.endpointSliceSetDigest == h.digestSlices(projections)
          && t.backendSetDigest == h.digestBackends(backends);
  }

  // The checks of one backend, in the order of the source; a later one overwrites an earlier one.
  method CheckBackend(h: Host, s: Subject, b: Backend, before: Option<TargetError>) returns (error: Option<TargetError>)
    ensures error == BackendCheck(h, s, b, before)
  {
    error := before;
    if !Identified(b) {
      error := Some(InvalidBackend);
    }
    if h.addressVersion(b.address) == None {
      error := Some(InvalidBackend);
    }
    if !Joined(h, s, b) {
      error := Some(InvalidBackend);
    }
    if b.imageDigest == None {
      error := Some(InvalidBackend);
    } else if b.imageDigest.value != s.delivery.imageDigest {
      error := Some(MixedImage);
    }
    if !ImageIdMatches(b) {
      error := Some(InvalidBackend);
    }
  }

  // The dictionary holds the first description of each EndpointSlice seen so far.
  lemma {:induction false} FirstSlice(bs: seq<Backend>, b: Backend)
    requires SlicesAgree(bs)
    ensures b.endpointSliceUid in SliceMap(bs) ==>
              exists j :: 0 <= j < |bs| && bs[j].endpointSliceUid == b.endpointSliceUid
                          && SliceOf(bs[j]) == SliceMap(bs)[b.endpointSliceUid]
    ensures forall j :: 0 <= j < |bs| && bs[j].endpointSliceUid == b.endpointSliceUid ==>
                          b.endpointSliceUid in SliceMap(bs) && SliceMap(bs)[b.endpointSliceUid] == SliceOf(bs[j])
  {
    if bs != [] {
      var n := |bs| - 1;
      var front := bs[..n];
      forall j, k | 0 <= j < k < n && front[j].endpointSliceUid == front[k].endpointSliceUid
        ensures SliceOf(front[j]) == SliceOf(front[k])
      {
        assert bs[j].endpointSliceUid == bs[k].endpointSliceUid;
      }
      FirstSlice(front, b);
      FirstSlice(front, bs[n]);
      if b.endpointSliceUid in SliceMap(front) {
        var j :| 0 <= j < |front| && front[j].endpointSliceUid == b.endpointSliceUid
                 && SliceOf(front[j]) == SliceMap(front)[b.endpointSliceUid];
        assert bs[j] == front[j];
      }
      forall j | 0 <= j < |bs| && bs[j].endpointSliceUid == b.endpointSliceUid
        ensures b.endpointSliceUid in SliceMap(bs) && SliceMap(bs)[b.endpointSliceUid] == SliceOf(bs[j])
      {
        if j < n {
          assert front[j] == bs[j];
        } else if bs[n].endpointSliceUid in SliceMap(front) {
          var i :| 0 <= i < |front| && front[i].endpointSliceUid == bs[n].endpointSliceUid
                   && SliceOf(front[i]) == SliceMap(front)[bs[n].endpointSliceUid];
          assert bs[i].endpointSliceUid == bs[n].endpointSliceUid;
        }
      }
    }
  }

  // What looking at backend n adds to the dictionary of slices and to what is known about them.
  lemma {:induction false} OneMoreSlice(bs: seq<Backend>, n: nat)
    requires n < |bs| && SlicesAgree(bs[..n])
    ensures SlicesAgree(bs[..n + 1]) <==>
              (bs[n].endpointSliceUid in SliceMap(bs[..n]) ==>
                 SliceMap(bs[..n])[bs[n].endpointSliceUid] == SliceOf(bs[n]))
    ensures SlicesAgree(bs) ==> SlicesAgree(bs[..n + 1])
    ensures SliceMap(bs[..n + 1]) == (if bs[n].endpointSliceUid in SliceMap(bs[..n]) then SliceMap(bs[..n])
                                      else SliceMap(bs[..n])[bs[n].endpointSliceUid := SliceOf(bs[n])])
    ensures SliceUids(bs[..n + 1]) == SliceUids(bs[..n]) + [bs[n].endpointSliceUid]
  {
    var front, more := bs[..n], bs[..n + 1];
    assert more[..n] == front && more[n] == bs[n];
    FirstSlice(front, bs[n]);
    if SlicesAgree(bs) {
      forall j, k | 0 <= j < k < |more| && more[j].endpointSliceUid == more[k].endpointSliceUid
        ensures SliceOf(more[j]) == SliceOf(more[k])
      {
        assert bs[j].endpointSliceUid == bs[k].endpointSliceUid;
      }
    }
    if bs[n].endpointSliceUid in SliceMap(front) ==> SliceMap(front)[bs[n].endpointSliceUid] == SliceOf(bs[n]) {
      forall j, k | 0 <= j < k < |more| && more[j].endpointSliceUid == more[k].endpointSliceUid
        ensures SliceOf(more[j]) == SliceOf(more[k])
      {
        assert more[j] == front[j];
        assert k < n ==> more[k] == front[k];
      }
    } else {
      var j :| 0 <= j < n && front[j].endpointSliceUid == bs[n].endpointSliceUid
               && SliceOf(front[j]) == SliceMap(front)[bs[n].endpointSliceUid];
      assert more[j].endpointSliceUid == more[n].endpointSliceUid && SliceOf(more[j]) != SliceOf(more[n]);
    }
  }

  // ---------------------------------------------------------------- one attempt

  // The backend results of an attempt with a valid target.
  method ValidateResults(h: Host, expected: Expected, a: Attempt, podUids: seq<string>)
    returns (ok: bool, states: seq<Verdict>)
    requires podUids == PodUids(a.preTarget.backends) && a.targetErrorCode == None
    ensures ok <==> ResultsMatch(h, expected, a)
    ensures ok ==> states == BackendStates(h, a.backendResults, expected)
  {
    states := [];
    var results := a.backendResults;
    if |results| != |podUids| {
      return false, [];
    }
    var n := 0;
    while n < |results|
      invariant 0 <= n <= |results| && |states| == n
      invariant forall k :: 0 <= k < n ==> results[k].podUid == podUids[k]
                                           && results[k].durationMs <= 5000
                                           && results[k].durationMs <= a.durationMs
                                           && results[k].state == BackendState(h, results[k], expected)
                                           && states[k] == BackendState(h, results[k], expected)
    {
      var item := results[n];
      if item.podUid != podUids[n] {
        return false, [];
      }
      if item.durationMs > 5000 || item.durationMs > a.durationMs {
        return false, [];
      }
      var derived := BackendState(h, item, expected);
      if item.state != derived {
        return false, [];
      }
      states := states + [derived];
      n := n + 1;
    }
    assert states == BackendStates(h, results, expected);
    ok := true;
  }

  // Everything about an attempt that does not depend on the ones before it.
  method ValidateAttempt(h: Host, s: Subject, expected: Expected, a: Attempt) returns (ok: bool, batchState: Verdict)
    ensures ok <==> AttemptOk(h, s, expected, a)
    ensures ok ==> batchState == a.state
  {
    batchState := ProbeError;
    if DurationMs(h, a) != a.durationMs || !(s.issuedAt <= a.startedAt < a.completedAt) {
      return false, batchState;
    }
    if a.completedAt > s.deadline || a.durationMs > 30000 {
      return false, batchState;
    }
    var preOk, preUids, preError := ValidateTarget(h, s, a.preTarget);
    if !preOk {
      return false, batchState;
    }
    var postOk, postUids, postError := ValidateTarget(h, s, a.postTarget);
    if !postOk {
      return false, batchState;
    }
    var targetError := if preError != None then preError else postError;
    if a.preTarget != a.postTarget || preUids != postUids {
      targetError := Some(TargetDrift);
    }
    assert targetError == AttemptError(h, s, a.preTarget, a.postTarget);
    if a.targetErrorCode != targetError {
      return false, batchState;
    }
    if targetError != None {
      if a.backendResults != [] {
        return false, batchState;
      }
      batchState := ProbeError;
    } else {
      var resultsOk, states := ValidateResults(h, expected, a, preUids);
      if !resultsOk {
        return false, batchState;
      }
      batchState := StateFrom(states);
    }
    ok := a.state == batchState;
  }

  // ---------------------------------------------------------------- one condition

  ghost function Ids(attempts: seq<Attempt>): set<string> {
    set k | 0 <= k < |attempts| :: attempts[k].attemptId
  }

  // The global clock: the completion of the last attempt so far.
  ghost function LastCompletion(attempts: seq<Attempt>): Option<int> {
    if attempts == [] then None else Some(attempts[|attempts| - 1].completedAt)
  }

  predicate Numbered(attempts: seq<Attempt>) {
    forall k :: 0 <= k < |attempts| ==> attempts[k].ordinal == k + 1
  }

  // What the loop over a condition's attempts has established about the first n of them.
  ghost predicate Checked(h: Host, s: Subject, expected: Expected, before: seq<Attempt>, attempts: seq<Attempt>, n: nat)
    requires n <= |attempts|
  {
    && (forall k :: 0 <= k < n ==> AttemptOk(h, s, expected, attempts[k]))
    && (forall j, k :: 0 <= j < k < n && k == j + 1 ==> attempts[k].startedAt >= attempts[j].completedAt + SECOND)
    && (forall k :: 0 < k <= n && k < |attempts| ==> Achieved(States(attempts[..k])) != 3)
    && (forall j, k :: 0 <= j < |before| && 0 <= k < n ==> before[j].attemptId != attempts[k].attemptId)
    && (forall j, k :: 0 <= j < k < n ==> attempts[j].attemptId != attempts[k].attemptId)
    && (before != [] && n > 0 ==> before[|before| - 1].completedAt <= attempts[0].startedAt)
  }

  // One more attempt keeps the facts exactly when it passes the checks of the loop.
  lemma {:induction false} CheckedStep(h: Host, s: Subject, expected: Expected, before: seq<Attempt>,
                                       attempts: seq<Attempt>, n: nat)
    requires n < |attempts| && Checked(h, s, expected, before, attempts, n)
    ensures var a := attempts[n];
            Checked(h, s, expected, before, attempts, n + 1) <==>
              && a.attemptId !in Ids(before + attempts[..n])
              && (n > 0 ==> a.startedAt >= attempts[n - 1].completedAt + SECOND)
              && (n == 0 && before != [] ==> before[|before| - 1].completedAt <= a.startedAt)
              && AttemptOk(h, s, expected, a)
              && (n + 1 < |attempts| ==> Achieved(States(attempts[..n + 1])) != 3)
  {
    hide AttemptOk, Achieved, States;
    IdsSeen(before, attempts, n);
  }

  lemma {:induction false} StatesStart(attempts: seq<Attempt>)
    ensures States(attempts[..0]) == [] && Streak([]) == 0 == Achieved([])
  {
  }

  lemma {:induction false} StatesStep(attempts: seq<Attempt>, n: nat)
    requires n < |attempts|
    ensures var before, after := States(attempts[..n]), States(attempts[..n + 1]);
            && after == before + [attempts[n].state]
            && Streak(after) == (if attempts[n].state == Pass then Streak(before) + 1 else 0)
            && Achieved(after) == Max(Achieved(before), Min(Streak(after), 3))
  {
    assert attempts[..n + 1][..n] == attempts[..n];
    var before, after := States(attempts[..n]), States(attempts[..n + 1]);
    assert after[..n] == before;
  }

  lemma {:induction false} CheckedNothing(h: Host, s: Subject, expected: Expected, before: seq<Attempt>,
                                          attempts: seq<Attempt>)
    ensures Checked(h, s, expected, before, attempts, 0)
  {
  }

  lemma {:induction false} CheckedPrefix(h: Host, s: Subject, expected: Expected, before: seq<Attempt>,
                                         attempts: seq<Attempt>, n: nat)
    requires n <= |attempts| && Checked(h, s, expected, before, attempts, |attempts|)
    ensures Checked(h, s, expected, before, attempts, n)
  {
    hide AttemptOk, Achieved, States;
  }

  lemma {:induction false} CheckedMeans(h: Host, s: Subject, expected: Expected, before: seq<Attempt>,
                                        attempts: seq<Attempt>)
    ensures Numbered(attempts) && Checked(h, s, expected, before, attempts, |attempts|) <==>
              && (forall k :: 0 <= k < |attempts| ==> AttemptOk(h, s, expected, attempts[k]))
              && Paced(attempts) && Continues(before, attempts)
  {
    hide AttemptOk, Achieved, States;
  }

  method ValidateAttempts(h: Host, s: Subject, expected: Expected, attempts: seq<Attempt>, ghost before: seq<Attempt>,
                          ids: set<string>, clock: Option<int>)
    returns (ok: bool, states: seq<Verdict>, achieved: int, ids': set<string>, clock': Option<int>)
    requires ids == Ids(before) && clock == LastCompletion(before)
    requires Numbered(attempts)
    ensures ok <==> Checked(h, s, expected, before, attempts, |attempts|)
    ensures ok ==> states == States(attempts) && achieved == Achieved(states)
    ensures ok ==> ids' == Ids(before + attempts) && clock' == LastCompletion(before + attempts)
  {
    hide AttemptOk, Checked, States, Streak, Achieved, Ids;
    assert States(attempts[..0]) == [] && Streak([]) == 0 == Achieved([]) by {
      StatesStart(attempts);
    }
    assert Checked(h, s, expected, before, attempts, 0) by {
      CheckedNothing(h, s, expected, before, attempts);
    }
    states, achieved, ids', clock' := [], 0, ids, clock;
    var streak := 0;
    var previous: Option<int> := None;
    var n := 0;
    assert before + attempts[..0] == before;
    while n < |attempts|
      invariant 0 <= n <= |attempts|
      invariant states == States(attempts[..n])
      invariant streak == Streak(states) && achieved == Achieved(states)
      invariant ids' == Ids(before + attempts[..n])
      invariant clock' == if n == 0 then LastCompletion(before) else Some(attempts[n - 1].completedAt)
      invariant previous == if n == 0 then None else Some(attempts[n - 1].completedAt)
      invariant Checked(h, s, expected, before, attempts, n)
    {
      var a := attempts[n];
      IdsSeen(before, attempts, n);
      CheckedStep(h, s, expected, before, attempts, n);
      if Checked(h, s, expected, before, attempts, |attempts|) {
        CheckedPrefix(h, s, expected, before, attempts, n + 1);
      }
      if a.attemptId in ids' {
        return false, [], 0, ids, clock;
      }
      ids' := ids' + {a.attemptId};
      if clock' != None && a.startedAt < clock'.value {
        return false, [], 0, ids, clock;
      }
      if previous != None && a.startedAt < previous.value + SECOND {
        return false, [], 0, ids, clock;
      }
      previous := Some(a.completedAt);
      clock' := Some(a.completedAt);
      var attemptOk, batchState := ValidateAttempt(h, s, expected, a);
      if !attemptOk {
        return false, [], 0, ids, clock;
      }
      StatesStep(attempts, n);
      states := states + [batchState];
      streak := if batchState == Pass then streak + 1 else 0;
      achieved := Max(achieved, Min(streak, 3));
      if achieved == 3 && a.ordinal != |attempts| {
        return false, [], 0, ids, clock;
      }
      n := n + 1;
    }
    assert attempts[..n] == attempts;
    ok := true;
  }

  // An identifier is in the set exactly when an earlier attempt carries it.
  lemma {:induction false} IdsSeen(before: seq<Attempt>, attempts: seq<Attempt>, n: nat)
    requires n < |attempts|
    ensures Ids(before + attempts[..n + 1]) == Ids(before + attempts[..n]) + {attempts[n].attemptId}
    ensures attempts[n].attemptId in Ids(before + attempts[..n]) <==>
              || (exists j :: 0 <= j < |before| && before[j].attemptId == attempts[n].attemptId)
              || (exists j :: 0 <= j < n && attempts[j].attemptId == attempts[n].attemptId)
    ensures LastCompletion(before + attempts[..n + 1]) == Some(attempts[n].completedAt)
  {
    var seen, more := before + attempts[..n], before + attempts[..n + 1];
    assert more == seen + [attempts[n]];
    forall j | 0 <= j < |before| ensures before[j].attemptId in Ids(seen) {
      assert seen[j] == before[j];
    }
    forall j | 0 <= j < n ensures attempts[j].attemptId in Ids(seen) {
      assert seen[|before| + j] == attempts[j];
    }
    forall id ensures id in Ids(more) <==> id in Ids(seen) || id == attempts[n].attemptId {
      if k :| 0 <= k < |seen| && seen[k].attemptId == id {
        assert more[k].attemptId == id;
      }
      assert more[|seen|] == attempts[n];
    }
  }

  method ValidateCondition(h: Host, s: Subject, d: Descriptor, c: Condition, ghost before: seq<Attempt>,
                           ids: set<string>, clock: Option<int>, reached: bool)
    returns (ok: bool, ids': set<string>, clock': Option<int>)
    requires ids == Ids(before) && clock == LastCompletion(before)
    ensures ok <==> ConditionOk(h, s, d, c) && (reached ==> c.attempts == []) && Continues(before, c.attempts)
    ensures ok ==> ids' == Ids(before + c.attempts) && clock' == LastCompletion(before + c.attempts)
  {
    hide AttemptOk, Matches, Checked, Continues, Paced;
    CheckedMeans(h, s, d.expected, before, c.attempts);
    ids', clock' := ids, clock;
    if !Matches(h, d, c) {
      return false, ids, clock;
    }
    var attempts := c.attempts;
    if reached && attempts != [] {
      return false, ids, clock;
    }
    if !Numbered(attempts) {
      return false, ids, clock;
    }
    var attemptsOk, states, achieved;
    attemptsOk, states, achieved, ids', clock' := ValidateAttempts(h, s, d.expected, attempts, before, ids, clock);
    if !attemptsOk {
      return false, ids, clock;
    }
    var early := exists k :: 0 <= k < |states| - 1 && states[k] == ProbeError;
    if early {
      return false, ids, clock;
    }
    var nonPass := NonPass(states);
    var finalState := if achieved == 3 then Pass else if nonPass != [] then StateFrom(nonPass) else Inconclusive;
    if c.state != finalState || c.achieved != achieved {
      return false, ids, clock;
    }
    var termination := if finalState == Pass then ConditionSatisfied
    else if finalState == ProbeError then StoppedOnProbeError
    else if |attempts| == 5 then AttemptsExhausted
    else RunDeadline;
    ok := c.termination == termination;
  }

  // ---------------------------------------------------------------- the whole document

  lemma {:induction false} PrefixOk(h: Host, s: Subject, ds: seq<Descriptor>, cs: seq<Condition>, n: nat)
    requires |ds| == |cs| && n <= |cs| && RunsOk(h, s, ds, cs)
    ensures RunsOk(h, s, ds[..n], cs[..n])
    decreases |cs|
  {
    hide ConditionOk, Continues;
    if n == |cs| {
      assert ds[..n] == ds && cs[..n] == cs;
    } else {
      var m := |cs| - 1;
      PrefixOk(h, s, ds[..m], cs[..m], n);
      assert ds[..m][..n] == ds[..n] && cs[..m][..n] == cs[..n];
    }
  }

  lemma {:induction false} EmptyRun(cs: seq<Condition>)
    ensures !DeadlineReached(cs[..0]) && Timeline(cs[..0]) == [] && Ids([]) == {} && LastCompletion([]) == None
  {
  }

  // What condition n adds to a prefix of the runs.
  lemma {:induction false} OneMoreRun(h: Host, s: Subject, ds: seq<Descriptor>, cs: seq<Condition>, n: nat)
    requires |ds| == |cs| && n < |cs|
    ensures RunsOk(h, s, ds[..n + 1], cs[..n + 1]) <==>
              && RunsOk(h, s, ds[..n], cs[..n])
              && ConditionOk(h, s, ds[n], cs[n])
              && (DeadlineReached(cs[..n]) ==> cs[n].attempts == [])
              && Continues(Timeline(cs[..n]), cs[n].attempts)
    ensures Timeline(cs[..n + 1]) == Timeline(cs[..n]) + cs[n].attempts
    ensures DeadlineReached(cs[..n + 1]) <==> DeadlineReached(cs[..n]) || cs[n].termination == RunDeadline
    ensures forall id :: PathStates(cs[..n + 1], id) ==
                         PathStates(cs[..n], id) + (if cs[n].pathId == id then [cs[n].state] else [])
  {
    hide ConditionOk, Continues;
    var before, more := cs[..n], cs[..n + 1];
    assert more[..n] == before && ds[..n + 1][..n] == ds[..n] && more[n] == cs[n] && ds[..n + 1][n] == ds[n];
    forall k | 0 <= k < n ensures before[k] == more[k] {
    }
    assert more[n].termination == cs[n].termination;
  }

  method ValidateRuns(h: Host, s: Subject, ds: seq<Descriptor>, cs: seq<Condition>)
    returns (ok: bool, reached: bool, health: seq<Verdict>, readiness: seq<Verdict>, contract: seq<Verdict>)
    requires |ds| == |cs|
    ensures ok <==> RunsOk(h, s, ds, cs)
    ensures ok ==> reached == DeadlineReached(cs)
    ensures ok ==> health == PathStates(cs, RuntimeHealth) && readiness == PathStates(cs, RuntimeReadiness)
                   && contract == PathStates(cs, RequestContract)
  {
    hide ConditionOk, Continues, DeadlineReached, Timeline, Ids, LastCompletion;
    assert !DeadlineReached(cs[..0]) && Timeline(cs[..0]) == [] && Ids([]) == {} && LastCompletion([]) == None by {
      EmptyRun(cs);
    }
    reached, health, readiness, contract := false, [], [], [];
    var ids: set<string> := {};
    var clock: Option<int> := None;
    var n := 0;
    while n < |cs|
      invariant 0 <= n <= |cs|
      invariant RunsOk(h, s, ds[..n], cs[..n])
      invariant reached == DeadlineReached(cs[..n])
      invariant ids == Ids(Timeline(cs[..n])) && clock == LastCompletion(Timeline(cs[..n]))
      invariant health == PathStates(cs[..n], RuntimeHealth) && readiness == PathStates(cs[..n], RuntimeReadiness)
      invariant contract == PathStates(cs[..n], RequestContract)
    {
      var c := cs[n];
      OneMoreRun(h, s, ds, cs, n);
      var conditionOk;
      conditionOk, ids, clock := ValidateCondition(h, s, ds[n], c, Timeline(cs[..n]), ids, clock, reached);
      if !conditionOk {
        if RunsOk(h, s, ds, cs) {
          PrefixOk(h, s, ds, cs, n + 1);
        }
        return false, reached, [], [], [];
      }
      if c.termination == RunDeadline {
        reached := true;
      }
      match c.pathId {
        case RuntimeHealth => health := health + [c.state];
        case RuntimeReadiness => readiness := readiness + [c.state];
        case RequestContract => contract := contract + [c.state];
      }
      n := n + 1;
    }
    assert ds[..n] == ds && cs[..n] == cs;
    ok := true;
  }

  /** Accepts exactly the documents of the declarative definition. */
  method ValidateSemantics(h: Host, s: Subject, r: ResultDoc) returns (ok: bool)
    ensures ok <==> Accepted(h, s, r)
  {
    hide SubjectOk, RunsOk;
    if !SubjectOk(h, s) {
      return false;
    }
    if !h.bound(s, r) || r.workOrderId != s.workOrderId || r.runId != s.runId {
      return false;
    }
    var descriptors := Descriptors(s.acceptance);
    if |r.conditionRuns| != |descriptors| {
      return false;
    }
    var runsOk, reached, health, readiness, contract := ValidateRuns(h, s, descriptors, r.conditionRuns);
    if !runsOk {
      return false;
    }
    var pathStates := [StateFrom(health), StateFrom(readiness), StateFrom(contract)];
    var expected := [PathResult(RuntimeHealth, pathStates[0], pathStates[0] == Pass),
                     PathResult(RuntimeReadiness, pathStates[1], pathStates[1] == Pass),
                     PathResult(RequestContract, pathStates[2], pathStates[2] == Pass)];
    if r.pathResults != expected {
      return false;
    }
    var aggregate := StateFrom(pathStates);
    if r.aggregateState != aggregate || r.satisfied != (aggregate == Pass) {
      return false;
    }
    var all := Timeline(r.conditionRuns);
    var expectedStart := if all != [] then all[0].startedAt else s.issuedAt;
    var expectedCompletion := if reached || all == [] then s.deadline else all[|all| - 1].completedAt;
    if r.startedAt != expectedStart || r.completedAt != expectedCompletion {
      return false;
    }
    ok := s.issuedAt <= r.startedAt < r.completedAt <= s.deadline < r.expiresAt <= s.delivery.expiresAt;
  }
}
