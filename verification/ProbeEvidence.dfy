/**
  The main results about accepted probe documents: soundness of a satisfied result,
  the document as a function of its raw evidence, and the arithmetic of the run's clock.
*/
module ProbeEvidence {
  import opened ProbeOrdering
  import opened ProbeModel
  import opened ProbeValidator
  import opened ProbeTheorems

  // ---------------------------------------------------------------- soundness

  // What the oracle demands of one response.
  predicate OracleHolds(h: Host, r: BackendResult, expected: Expected) {
    && r.errorCode == None && r.status == Some(200) && r.responseBytes <= 65536 && !r.responseTruncated
    && match expected
       case StatusOnly => r.oracle == StatusOracle(200, Some(200))
       case ExactText(media, text) =>
         && r.mediaType == Some(media)
         && r.contentSha256 == Some(h.digestText(text)) && r.responseBytes == h.utf8Length(text)
         && r.oracle == TextOracle(h.digestText(text), Some(h.digestText(text)))
       case JsonSubset(media, subset) =>
         && r.mediaType == Some(media)
         && r.contentSha256.Some? && r.responseBytes != 0
         && r.oracle == JsonOracle(h.entriesOf(subset))
  }

  // A passing attempt: an unchanged admitted target, every one of its pods probed once, every oracle holding.
  predicate SoundPass(h: Host, s: Subject, expected: Expected, a: Attempt) {
    && a.preTarget == a.postTarget
    && Admitted(h, s, a.preTarget)
    && |a.backendResults| == |a.preTarget.backends|
    && forall k :: 0 <= k < |a.backendResults| ==>
                     && a.preTarget.backends[k].podUid == Some(a.backendResults[k].podUid)
                     && a.preTarget.backends[k].imageDigest == Some(s.delivery.imageDigest)
                     && OracleHolds(h, a.backendResults[k], expected)
  }

  lemma {:induction false} BackendPass(h: Host, r: BackendResult, expected: Expected)
    ensures BackendState(h, r, expected) == Pass <==> OracleHolds(h, r, expected)
  {
  }

  // The results of a batch pass together exactly when there are some and every oracle holds.
  lemma {:induction false} BatchPass(h: Host, rs: seq<BackendResult>, expected: Expected)
    ensures StateFrom(BackendStates(h, rs, expected)) == Pass <==>
              rs != [] && forall k :: 0 <= k < |rs| ==> OracleHolds(h, rs[k], expected)
  {
    hide OracleHolds, BackendState, StateFrom;
    var vs := BackendStates(h, rs, expected);
    AllPass(vs);
    forall k | 0 <= k < |rs| ensures vs[k] == Pass <==> OracleHolds(h, rs[k], expected) {
      BackendPass(h, rs[k], expected);
    }
    if vs != [] && forall k :: 0 <= k < |vs| ==> vs[k] == Pass {
      forall k | 0 <= k < |rs| ensures OracleHolds(h, rs[k], expected) {
        assert vs[k] == Pass;
      }
    }
  }

  // The backends of an admitted target, by their pods.
  lemma {:induction false} AdmittedPods(h: Host, s: Subject, t: Target)
    requires Admitted(h, s, t)
    ensures |PodUids(t.backends)| == |t.backends| >= 1
    ensures forall k :: 0 <= k < |t.backends| ==>
                          && t.backends[k].podUid == Some(PodUids(t.backends)[k])
                          && t.backends[k].imageDigest == Some(s.delivery.imageDigest)
  {
    hide Delivered;
    var bs := t.backends;
    forall k | 0 <= k < |bs| ensures bs[k].podUid.Some? && bs[k].imageDigest == Some(s.delivery.imageDigest) {
      HasPod(h, s, bs[k]);
    }
    PodsOfAll(bs);
  }

  /** An attempt that is recorded as a pass is a sound pass, and the other way round. */
  lemma {:induction false} AttemptPassExactly(h: Host, s: Subject, expected: Expected, a: Attempt)
    requires AttemptOk(h, s, expected, a)
    ensures a.state == Pass <==> SoundPass(h, s, expected, a)
  {
    hide Coherent, Classify, OracleHolds, BackendState, BackendStates, StateFrom, Admitted, PodUids;
    ClassifyExactly(h, s, a.preTarget);
    if a.preTarget == a.postTarget && Admitted(h, s, a.preTarget) {
      AdmittedPods(h, s, a.preTarget);
      BatchPass(h, a.backendResults, expected);
    }
  }

  lemma {:induction false} ConditionPass(h: Host, s: Subject, d: Descriptor, c: Condition)
    requires ConditionOk(h, s, d, c) && c.state == Pass
    ensures |c.attempts| >= 3
    ensures forall k :: |c.attempts| - 3 <= k < |c.attempts| ==> c.attempts[k].state == Pass
    ensures forall k :: 0 <= k < |c.attempts| ==> c.attempts[k].state != ProbeError
  {
    hide AttemptOk, Matches, Achieved, FinalState;
    var vs, n := States(c.attempts), |c.attempts|;
    FinalPass(vs);
    if n > 0 {
      assert vs[..n - 1] == States(c.attempts[..n - 1]);
    }
    if n == 1 {
      FirstIsNotThird(vs);
    }
    LastThreePass(vs);
  }

  lemma {:induction false} FirstIsNotThird(vs: seq<Verdict>)
    requires |vs| == 1
    ensures Achieved(vs[..0]) == 0
  {
  }

  /**
    A satisfied result: health, readiness and every frozen acceptance entry have at least three attempts, the
    last three of them sound passes of that very expectation, and no attempt of the run is a probe error.
   */
  lemma {:induction false} EvidenceSoundness(h: Host, s: Subject, r: ResultDoc, k: nat)
    requires Accepted(h, s, r) && r.satisfied && k < |s.acceptance| + 2
    ensures k < |r.conditionRuns| && Matches(h, Descriptors(s.acceptance)[k], r.conditionRuns[k])
    ensures var attempts := r.conditionRuns[k].attempts;
            && |attempts| >= 3
            && (forall j :: |attempts| - 3 <= j < |attempts| ==>
                              SoundPass(h, s, Descriptors(s.acceptance)[k].expected, attempts[j]))
            && (forall j :: 0 <= j < |attempts| ==> attempts[j].state != ProbeError)
  {
    hide SoundPass, AttemptOk, Paced, Matches, SubjectOk, RunsOk;
    var d, c := Descriptors(s.acceptance)[k], r.conditionRuns[k];
    SatisfiedExactly(h, s, r);
    ConditionAt(h, s, Descriptors(s.acceptance), r.conditionRuns, k);
    ConditionPass(h, s, d, c);
    forall j | |c.attempts| - 3 <= j < |c.attempts| ensures SoundPass(h, s, d.expected, c.attempts[j]) {
      AttemptPassExactly(h, s, d.expected, c.attempts[j]);
    }
  }

  // ---------------------------------------------------------------- the document is a function of its evidence

  // What a verifier observes, without any judgement of it.
  datatype RawResponse = RawResponse(podUid: string, durationMs: int, status: Option<int>, mediaType: Option<string>,
                                     responseBytes: int, responseTruncated: bool, contentSha256: Option<string>,
                                     errorCode: Option<BackendError>, oracle: Oracle)
  datatype RawAttempt = RawAttempt(startedAt: int, completedAt: int, pre: Target, post: Target,
                                   responses: seq<RawResponse>)

  function ResponseOf(r: BackendResult): RawResponse {
    RawResponse(r.podUid, r.durationMs, r.status, r.mediaType, r.responseBytes, r.responseTruncated, r.contentSha256,
                r.errorCode, r.oracle)
  }

  function ResponsesOf(rs: seq<BackendResult>): (raw: seq<RawResponse>)
    ensures |raw| == |rs| && forall k :: 0 <= k < |rs| ==> raw[k] == ResponseOf(rs[k])
  {
    if rs == [] then [] else [ResponseOf(rs[0])] + ResponsesOf(rs[1..])
  }

  function AttemptOf(a: Attempt): RawAttempt {
    RawAttempt(a.startedAt, a.completedAt, a.preTarget, a.postTarget, ResponsesOf(a.backendResults))
  }

  function AttemptsOf(attempts: seq<Attempt>): (raw: seq<RawAttempt>)
    ensures |raw| == |attempts| && forall k :: 0 <= k < |attempts| ==> raw[k] == AttemptOf(attempts[k])
  {
    if attempts == [] then [] else [AttemptOf(attempts[0])] + AttemptsOf(attempts[1..])
  }

  function RunsOf(cs: seq<Condition>): (raw: seq<seq<RawAttempt>>)
    ensures |raw| == |cs| && forall k :: 0 <= k < |cs| ==> raw[k] == AttemptsOf(cs[k].attempts)
  {
    if cs == [] then [] else [AttemptsOf(cs[0].attempts)] + RunsOf(cs[1..])
  }

  function EvidenceOf(r: ResultDoc): seq<seq<RawAttempt>> {
    RunsOf(r.conditionRuns)
  }

  // A document without its attempt identifiers and its expiry, which no verdict looks at.
  function Anonymous(a: Attempt): Attempt {
    a.(attemptId := "")
  }

  function AnonymousAttempts(attempts: seq<Attempt>): (anon: seq<Attempt>)
    ensures |anon| == |attempts| && forall k :: 0 <= k < |attempts| ==> anon[k] == Anonymous(attempts[k])
  {
    if attempts == [] then []
    else AnonymousAttempts(attempts[..|attempts| - 1]) + [Anonymous(attempts[|attempts| - 1])]
  }

  function AnonymousCondition(c: Condition): Condition {
    c.(attempts := AnonymousAttempts(c.attempts))
  }

  function AnonymousRuns(cs: seq<Condition>): (anon: seq<Condition>)
    ensures |anon| == |cs| && forall k :: 0 <= k < |cs| ==> anon[k] == AnonymousCondition(cs[k])
  {
    if cs == [] then [] else AnonymousRuns(cs[..|cs| - 1]) + [AnonymousCondition(cs[|cs| - 1])]
  }

  function AnonymousDoc(r: ResultDoc): ResultDoc {
    r.(conditionRuns := AnonymousRuns(r.conditionRuns), expiresAt := 0)
  }

  // What anonymity leaves out.
  predicate SameNames(r1: ResultDoc, r2: ResultDoc) {
    && r1.expiresAt == r2.expiresAt
    && |r1.conditionRuns| == |r2.conditionRuns|
    && forall k :: 0 <= k < |r1.conditionRuns| ==>
                     SameIds(r1.conditionRuns[k].attempts, r2.conditionRuns[k].attempts)
  }

  predicate SameIds(a1: seq<Attempt>, a2: seq<Attempt>) {
    && |a1| == |a2|
    && forall k :: 0 <= k < |a1| ==> a1[k].attemptId == a2[k].attemptId
  }

  lemma {:induction false} SameResponse(h: Host, expected: Expected, r1: BackendResult, r2: BackendResult)
    requires ResponseOf(r1) == ResponseOf(r2)
    ensures BackendState(h, r1, expected) == BackendState(h, r2, expected)
    ensures r1.state == r2.state ==> r1 == r2
  {
  }

  lemma {:induction false} SameAttempt(h: Host, s: Subject, expected: Expected, a1: Attempt, a2: Attempt)
    requires AttemptOk(h, s, expected, a1) && AttemptOk(h, s, expected, a2) && a1.ordinal == a2.ordinal
    requires AttemptOf(a1) == AttemptOf(a2)
    ensures Anonymous(a1) == Anonymous(a2)
  {
    hide Coherent, Classify, BackendState, BackendStates, StateFrom;
    assert a1.targetErrorCode == a2.targetErrorCode;
    var n := |a1.backendResults|;
    assert n == |ResponsesOf(a1.backendResults)| == |a2.backendResults|;
    forall k | 0 <= k < n ensures a1.backendResults[k] == a2.backendResults[k] {
      assert ResponsesOf(a1.backendResults)[k] == ResponsesOf(a2.backendResults)[k];
      SameResponse(h, expected, a1.backendResults[k], a2.backendResults[k]);
    }
    assert a1.backendResults == a2.backendResults;
  }

  lemma {:induction false} SameCondition(h: Host, s: Subject, d: Descriptor, c1: Condition, c2: Condition)
    requires ConditionOk(h, s, d, c1) && ConditionOk(h, s, d, c2)
    requires AttemptsOf(c1.attempts) == AttemptsOf(c2.attempts)
    ensures AnonymousCondition(c1) == AnonymousCondition(c2)
  {
    hide AttemptOk, FinalState, Achieved, States, AnonymousAttempts;
    var n := |c1.attempts|;
    assert n == |AttemptsOf(c1.attempts)| == |c2.attempts|;
    forall k | 0 <= k < n ensures Anonymous(c1.attempts[k]) == Anonymous(c2.attempts[k]) {
      assert AttemptsOf(c1.attempts)[k] == AttemptsOf(c2.attempts)[k];
      SameAttempt(h, s, d.expected, c1.attempts[k], c2.attempts[k]);
    }
    assert AnonymousAttempts(c1.attempts) == AnonymousAttempts(c2.attempts);
    SameStates(c1.attempts, c2.attempts);
  }

  lemma {:induction false} SameStates(a1: seq<Attempt>, a2: seq<Attempt>)
    requires AnonymousAttempts(a1) == AnonymousAttempts(a2)
    ensures States(a1) == States(a2)
  {
    assert |a1| == |AnonymousAttempts(a1)| == |a2|;
    forall k | 0 <= k < |a1| ensures a1[k].state == a2[k].state {
      assert AnonymousAttempts(a1)[k] == AnonymousAttempts(a2)[k];
    }
    assert States(a1) == States(a2);
  }

  lemma {:induction false} AnonymousJoin(a: seq<Attempt>, b: seq<Attempt>)
    ensures AnonymousAttempts(a + b) == AnonymousAttempts(a) + AnonymousAttempts(b)
  {
    hide AnonymousAttempts;
    assert AnonymousAttempts(a + b) == AnonymousAttempts(a) + AnonymousAttempts(b);
  }

  // No reduction and no clock of a run looks at the identifiers.
  lemma {:induction false} RunsAreAnonymous(cs: seq<Condition>, id: PathId)
    ensures PathStates(AnonymousRuns(cs), id) == PathStates(cs, id)
    ensures Timeline(AnonymousRuns(cs)) == AnonymousAttempts(Timeline(cs))
  {
    hide AnonymousAttempts;
    if cs != [] {
      var n := |cs| - 1;
      RunsAreAnonymous(cs[..n], id);
      AnonymousJoin(Timeline(cs[..n]), cs[n].attempts);
      assert AnonymousRuns(cs)[..n] == AnonymousRuns(cs[..n]);
    } else {
      assert AnonymousAttempts([]) == [];
    }
  }

  lemma {:induction false} SummaryIsAnonymous(s: Subject, cs: seq<Condition>)
    ensures forall id :: PathVerdict(AnonymousRuns(cs), id) == PathVerdict(cs, id)
    ensures Aggregate(AnonymousRuns(cs)) == Aggregate(cs)
    ensures StartOf(s, AnonymousRuns(cs)) == StartOf(s, cs) && CompletionOf(s, AnonymousRuns(cs)) == CompletionOf(s, cs)
  {
    hide AnonymousAttempts, AnonymousRuns, StateFrom, PathStates, Timeline;
    forall id ensures PathVerdict(AnonymousRuns(cs), id) == PathVerdict(cs, id) {
      RunsAreAnonymous(cs, id);
    }
    RunsAreAnonymous(cs, RuntimeHealth);
    var anon := AnonymousRuns(cs);
    assert forall k :: 0 <= k < |cs| ==> anon[k].termination == cs[k].termination;
    assert DeadlineReached(anon) == DeadlineReached(cs);
  }

  lemma {:induction false} SummaryFollows(s: Subject, r1: ResultDoc, r2: ResultDoc)
    requires SummaryOk(s, r1) && SummaryOk(s, r2)
    requires r1.workOrderId == r2.workOrderId && r1.runId == r2.runId
    requires AnonymousRuns(r1.conditionRuns) == AnonymousRuns(r2.conditionRuns)
    ensures AnonymousDoc(r1) == AnonymousDoc(r2)
  {
    hide PathVerdict, Aggregate, StartOf, CompletionOf, AnonymousRuns;
    SummaryIsAnonymous(s, r1.conditionRuns);
    SummaryIsAnonymous(s, r2.conditionRuns);
  }

  // Nothing but the names was left out.
  lemma {:induction false} OnlyNamesLeftOut(r1: ResultDoc, r2: ResultDoc)
    requires AnonymousDoc(r1) == AnonymousDoc(r2) && SameNames(r1, r2)
    ensures r1 == r2
  {
    hide AnonymousAttempts, AnonymousRuns;
    var cs1, cs2 := r1.conditionRuns, r2.conditionRuns;
    forall k | 0 <= k < |cs1| ensures cs1[k] == cs2[k] {
      assert AnonymousRuns(cs1)[k] == AnonymousRuns(cs2)[k];
      var a1, a2 := cs1[k].attempts, cs2[k].attempts;
      assert SameIds(a1, a2);
      forall j | 0 <= j < |a1| ensures a1[j] == a2[j] {
        assert AnonymousAttempts(a1)[j] == AnonymousAttempts(a2)[j];
      }
      assert a1 == a2;
    }
    assert cs1 == cs2;
  }

  /**
    Two accepted documents for one subject with the same raw evidence agree on everything but the names of
    their attempts and their expiry, and are the same document when they agree on these.
   */
  lemma {:induction false} DocumentIsFunctionOfEvidence(h: Host, s: Subject, r1: ResultDoc, r2: ResultDoc)
    requires Accepted(h, s, r1) && Accepted(h, s, r2)
    requires EvidenceOf(r1) == EvidenceOf(r2)
    ensures AnonymousDoc(r1) == AnonymousDoc(r2)
    ensures SameNames(r1, r2) ==> r1 == r2
  {
    hide ConditionOk, SubjectOk, RunsOk, SummaryOk, AnonymousCondition, AnonymousRuns, AnonymousDoc, SameNames;
    var cs1, cs2, ds := r1.conditionRuns, r2.conditionRuns, Descriptors(s.acceptance);
    forall k | 0 <= k < |cs1| ensures AnonymousCondition(cs1[k]) == AnonymousCondition(cs2[k]) {
      ConditionAt(h, s, ds, cs1, k);
      ConditionAt(h, s, ds, cs2, k);
      assert RunsOf(cs1)[k] == RunsOf(cs2)[k];
      SameCondition(h, s, ds[k], cs1[k], cs2[k]);
    }
    assert AnonymousRuns(cs1) == AnonymousRuns(cs2);
    SummaryFollows(s, r1, r2);
    if SameNames(r1, r2) {
      OnlyNamesLeftOut(r1, r2);
    }
  }

  // ---------------------------------------------------------------- the shape of a run

  lemma {:induction false} NoAttemptsMeansDeadline(h: Host, s: Subject, d: Descriptor, c: Condition)
    requires ConditionOk(h, s, d, c) && c.attempts == []
    ensures c.state == Inconclusive && c.termination == RunDeadline && c.achieved == 0
  {
    hide Matches;
    assert States(c.attempts) == [];
  }

  /** After the first condition that ends by the run deadline, or without attempts, all are empty and inconclusive. */
  lemma {:induction false} DeadlineShape(h: Host, s: Subject, r: ResultDoc, j: nat, k: nat)
    requires Accepted(h, s, r) && j < k < |r.conditionRuns|
    requires r.conditionRuns[j].termination == RunDeadline || r.conditionRuns[j].attempts == []
    ensures var c := r.conditionRuns[k];
            c.attempts == [] && c.state == Inconclusive && c.termination == RunDeadline
    ensures !r.satisfied
  {
    hide ConditionOk, SubjectOk, RunsOk;
    var cs, ds := r.conditionRuns, Descriptors(s.acceptance);
    ConditionAt(h, s, ds, cs, j);
    if cs[j].attempts == [] {
      NoAttemptsMeansDeadline(h, s, ds[j], cs[j]);
    }
    assert cs[..k][j].termination == RunDeadline;
    ConditionAt(h, s, ds, cs, k);
    NoAttemptsMeansDeadline(h, s, ds[k], cs[k]);
    SatisfiedExactly(h, s, r);
  }

  // Attempts in order and apart, each inside the signed window, all with different identifiers.
  ghost predicate Orderly(s: Subject, all: seq<Attempt>) {
    && (forall k :: 0 <= k < |all| ==> s.issuedAt <= all[k].startedAt < all[k].completedAt <= s.deadline)
    && (forall j, k :: 0 <= j < k < |all| ==> all[j].completedAt <= all[k].startedAt)
    && (forall j, k :: 0 <= j < k < |all| ==> all[j].attemptId != all[k].attemptId)
  }

  // One pause between an attempt and the next.
  lemma {:induction false} OnePause(h: Host, s: Subject, d: Descriptor, c: Condition, k: nat)
    requires ConditionOk(h, s, d, c) && k + 1 < |c.attempts|
    ensures c.attempts[k].completedAt + SECOND <= c.attempts[k + 1].startedAt
  {
    hide Matches, AttemptOk, States, Achieved, StopsOnProbeError, FinalState, TerminationOf;
  }

  lemma {:induction false} AttemptsOrderly(h: Host, s: Subject, d: Descriptor, c: Condition, j: nat, k: nat)
    requires ConditionOk(h, s, d, c) && j < k < |c.attempts|
    ensures c.attempts[j].completedAt + SECOND * (k - j) <= c.attempts[k].startedAt
    decreases k - j
  {
    hide ConditionOk;
    OnePause(h, s, d, c, k - 1);
    if k > j + 1 {
      AttemptsOrderly(h, s, d, c, j, k - 1);
      InWindow(h, s, d, c, k - 1);
    }
  }

  lemma {:induction false} InWindow(h: Host, s: Subject, d: Descriptor, c: Condition, k: nat)
    requires ConditionOk(h, s, d, c) && k < |c.attempts|
    ensures s.issuedAt <= c.attempts[k].startedAt < c.attempts[k].completedAt <= s.deadline
  {
    hide Matches, Paced, States, Achieved, StopsOnProbeError, FinalState, TerminationOf, ResultsMatch, Coherent;
    assert AttemptOk(h, s, d.expected, c.attempts[k]);
  }

  lemma {:induction false} JoinOrderly(h: Host, s: Subject, d: Descriptor, c: Condition, before: seq<Attempt>)
    requires ConditionOk(h, s, d, c) && Orderly(s, before) && Continues(before, c.attempts)
    ensures Orderly(s, before + c.attempts)
  {
    hide ConditionOk;
    var all, m := before + c.attempts, |before|;
    forall k | 0 <= k < |c.attempts|
      ensures s.issuedAt <= c.attempts[k].startedAt < c.attempts[k].completedAt <= s.deadline
    {
      InWindow(h, s, d, c, k);
    }
    forall j, k | 0 <= j < k < |all| ensures all[j].completedAt <= all[k].startedAt {
      if j < m <= k {
        if k > m {
          AttemptsOrderly(h, s, d, c, 0, k - m);
        }
      } else if m <= j {
        AttemptsOrderly(h, s, d, c, j - m, k - m);
      }
    }
  }

  /** All attempts of an accepted run, across conditions, are ordered, disjoint, distinct and inside the window. */
  lemma {:induction false} RunIsOrderly(h: Host, s: Subject, ds: seq<Descriptor>, cs: seq<Condition>)
    requires |ds| == |cs| && RunsOk(h, s, ds, cs)
    ensures Orderly(s, Timeline(cs))
  {
    hide ConditionOk, Continues;
    if cs != [] {
      var n := |cs| - 1;
      RunIsOrderly(h, s, ds[..n], cs[..n]);
      JoinOrderly(h, s, ds[n], cs[n], Timeline(cs[..n]));
    }
  }

  // The pauses of a run, in seconds: one between any two attempts of a condition.
  function Pauses(cs: seq<Condition>): nat {
    if cs == [] then 0
    else Pauses(cs[..|cs| - 1]) + (if cs[|cs| - 1].attempts == [] then 0 else |cs[|cs| - 1].attempts| - 1)
  }

  // From the first start of a condition to its last completion there is room for its pauses.
  lemma {:induction false} SpanOfCondition(h: Host, s: Subject, d: Descriptor, c: Condition)
    requires ConditionOk(h, s, d, c) && c.attempts != []
    ensures var last := |c.attempts| - 1;
            && s.issuedAt <= c.attempts[0].startedAt
            && c.attempts[0].startedAt + SECOND * last < c.attempts[last].completedAt <= s.deadline
  {
    hide ConditionOk;
    var last := |c.attempts| - 1;
    InWindow(h, s, d, c, 0);
    InWindow(h, s, d, c, last);
    if last > 0 {
      AttemptsOrderly(h, s, d, c, 0, last);
    }
  }

  lemma {:induction false} ClocksJoin(before: seq<Attempt>, attempts: seq<Attempt>)
    requires Continues(before, attempts) && before != [] && attempts != []
    ensures before[|before| - 1].completedAt <= attempts[0].startedAt
  {
  }

  // The pauses counted so far fit between the issue of the subject and the last completion.
  predicate Fits(s: Subject, pauses: nat, all: seq<Attempt>) {
    if all == [] then pauses == 0
    else s.issuedAt + SECOND * pauses < all[|all| - 1].completedAt <= s.deadline
  }

  lemma {:induction false} OneMoreFits(h: Host, s: Subject, d: Descriptor, c: Condition, pauses: nat,
                                       before: seq<Attempt>)
    requires ConditionOk(h, s, d, c) && Continues(before, c.attempts) && Fits(s, pauses, before)
    ensures Fits(s, pauses + (if c.attempts == [] then 0 else |c.attempts| - 1), before + c.attempts)
  {
    hide ConditionOk, Continues;
    if c.attempts != [] {
      var last, all := |c.attempts| - 1, before + c.attempts;
      SpanOfCondition(h, s, d, c);
      if before != [] {
        ClocksJoin(before, c.attempts);
      }
      assert all[|all| - 1] == c.attempts[last];
    } else {
      assert before + c.attempts == before;
    }
  }

  lemma {:induction false} PausesFit(h: Host, s: Subject, ds: seq<Descriptor>, cs: seq<Condition>)
    requires |ds| == |cs| && RunsOk(h, s, ds, cs)
    ensures Fits(s, Pauses(cs), Timeline(cs))
  {
    hide ConditionOk, Continues, Fits;
    if cs != [] {
      var n := |cs| - 1;
      PausesFit(h, s, ds[..n], cs[..n]);
      OneMoreFits(h, s, ds[n], cs[n], Pauses(cs[..n]), Timeline(cs[..n]));
    } else {
      NothingFits(s);
    }
  }

  lemma {:induction false} NothingFits(s: Subject)
    ensures Fits(s, 0, [])
  {
  }

  /** The pauses of an accepted run add up to less than four minutes. */
  lemma {:induction false} PausesUnderFourMinutes(h: Host, s: Subject, r: ResultDoc)
    requires Accepted(h, s, r)
    ensures Pauses(r.conditionRuns) < 240
  {
    hide RunsOk;
    PausesFit(h, s, Descriptors(s.acceptance), r.conditionRuns);
  }

  lemma {:induction false} ThreeAttemptsEach(cs: seq<Condition>)
    requires forall k :: 0 <= k < |cs| ==> |cs[k].attempts| >= 3
    ensures Pauses(cs) >= 2 * |cs|
  {
    if cs != [] {
      ThreeAttemptsEach(cs[..|cs| - 1]);
    }
  }

  /** So a satisfied result cannot have more than 117 acceptance entries. */
  lemma {:induction false} AtMost117Entries(h: Host, s: Subject, r: ResultDoc)
    requires Accepted(h, s, r) && r.satisfied
    ensures |s.acceptance| <= 117
  {
    hide RunsOk, SubjectOk, SummaryOk;
    forall k | 0 <= k < |r.conditionRuns| ensures |r.conditionRuns[k].attempts| >= 3 {
      EvidenceSoundness(h, s, r, k);
    }
    ThreeAttemptsEach(r.conditionRuns);
    PausesUnderFourMinutes(h, s, r);
  }
}
