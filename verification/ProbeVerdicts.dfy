/**
  Every verdict of an accepted document, read off the raw responses, targets and attempts: not only when a
  result passes, but what each of the other verdicts means.
*/
module ProbeVerdicts {
  import opened ProbeOrdering
  import opened ProbeModel
  import opened ProbeTheorems
  import opened ProbeEvidence

  // ---------------------------------------------------------------- one response

  // The probe itself failed: anything but the end of the run.
  predicate Errs(r: BackendResult) {
    r.errorCode.Some? && r.errorCode.value != RunDeadlineHit
  }

  predicate CutOff(r: BackendResult) {
    r.errorCode == Some(RunDeadlineHit)
  }

  // A response arrived, and is not the expected one.
  predicate Fails(h: Host, r: BackendResult, expected: Expected) {
    r.errorCode == None && !OracleHolds(h, r, expected)
  }

  /** The four verdicts on a response, each exactly. */
  lemma {:induction false} ResponseExactly(h: Host, r: BackendResult, expected: Expected)
    ensures BackendState(h, r, expected) == ProbeError <==> Errs(r)
    ensures BackendState(h, r, expected) == Inconclusive <==> CutOff(r)
    ensures BackendState(h, r, expected) == Fail <==> Fails(h, r, expected)
    ensures BackendState(h, r, expected) == Pass <==> OracleHolds(h, r, expected)
  {
  }

  // ---------------------------------------------------------------- one attempt

  // The target is the same before and after, and admitted.
  predicate Sighted(h: Host, s: Subject, a: Attempt) {
    a.preTarget == a.postTarget && Admitted(h, s, a.preTarget)
  }

  lemma {:induction false} ReductionExactly(vs: seq<Verdict>)
    ensures StateFrom(vs) == ProbeError <==> ProbeError in vs
    ensures StateFrom(vs) == Fail <==> Fail in vs && ProbeError !in vs
    ensures StateFrom(vs) == Inconclusive <==>
              vs == [] || (Inconclusive in vs && Fail !in vs && ProbeError !in vs)
  {
    assert vs != [] ==> vs[0] in vs;
  }

  predicate AnyErrs(rs: seq<BackendResult>) {
    exists k :: 0 <= k < |rs| && Errs(rs[k])
  }

  predicate AnyCutOff(rs: seq<BackendResult>) {
    exists k :: 0 <= k < |rs| && CutOff(rs[k])
  }

  predicate AnyFails(h: Host, rs: seq<BackendResult>, expected: Expected) {
    exists k :: 0 <= k < |rs| && Fails(h, rs[k], expected)
  }

  // A verdict occurs in a batch exactly when some response earns it.
  lemma {:induction false} BatchHas(h: Host, rs: seq<BackendResult>, expected: Expected)
    ensures var vs := BackendStates(h, rs, expected);
            && (ProbeError in vs <==> AnyErrs(rs))
            && (Inconclusive in vs <==> AnyCutOff(rs))
            && (Fail in vs <==> AnyFails(h, rs, expected))
  {
    hide BackendState, BackendStates, Errs, CutOff, Fails, OracleHolds;
    var vs := BackendStates(h, rs, expected);
    forall k | 0 <= k < |rs|
      ensures vs[k] == ProbeError <==> Errs(rs[k])
      ensures vs[k] == Inconclusive <==> CutOff(rs[k])
      ensures vs[k] == Fail <==> Fails(h, rs[k], expected)
    {
      ResponseExactly(h, rs[k], expected);
    }
    if k :| 0 <= k < |rs| && Errs(rs[k]) {
      assert vs[k] in vs;
    }
    if k :| 0 <= k < |rs| && CutOff(rs[k]) {
      assert vs[k] in vs;
    }
    if k :| 0 <= k < |rs| && Fails(h, rs[k], expected) {
      assert vs[k] in vs;
    }
  }

  // An attempt probes nothing without a sighted target, and otherwise each of its pods once and in order.
  lemma {:induction false} ProbedExactly(h: Host, s: Subject, expected: Expected, a: Attempt)
    requires AttemptOk(h, s, expected, a)
    ensures !Sighted(h, s, a) <==> a.targetErrorCode.Some?
    ensures !Sighted(h, s, a) ==> a.backendResults == [] && a.state == ProbeError
    ensures Sighted(h, s, a) ==>
              && |a.backendResults| == |a.preTarget.backends| >= 1
              && (forall k :: 0 <= k < |a.backendResults| ==>
                    a.preTarget.backends[k].podUid == Some(a.backendResults[k].podUid))
              && a.state == StateFrom(BackendStates(h, a.backendResults, expected))
  {
    hide Coherent, Classify, BackendState, BackendStates, StateFrom, Admitted, PodUids;
    ClassifyExactly(h, s, a.preTarget);
    if Sighted(h, s, a) {
      AdmittedPods(h, s, a.preTarget);
    }
  }

  /** The verdicts on an accepted attempt other than a pass, each exactly, from its targets and raw responses. */
  lemma {:induction false} AttemptVerdictsExactly(h: Host, s: Subject, expected: Expected, a: Attempt)
    requires AttemptOk(h, s, expected, a)
    ensures var rs := a.backendResults;
            && (a.state == ProbeError <==> !Sighted(h, s, a) || AnyErrs(rs))
            && (a.state == Fail <==> Sighted(h, s, a) && !AnyErrs(rs) && AnyFails(h, rs, expected))
            && (a.state == Inconclusive <==>
                  Sighted(h, s, a) && !AnyErrs(rs) && !AnyFails(h, rs, expected) && AnyCutOff(rs))
  {
    hide AttemptOk, Sighted, AnyErrs, AnyFails, AnyCutOff, BackendStates, StateFrom;
    ProbedExactly(h, s, expected, a);
    BatchHas(h, a.backendResults, expected);
    ReductionExactly(BackendStates(h, a.backendResults, expected));
  }

  // ---------------------------------------------------------------- the classification of a target

  // The backend carries a well-named image, but not the delivered one.
  predicate Foreign(s: Subject, b: Backend) {
    ImageIdMatches(b) && b.imageDigest != Some(s.delivery.imageDigest)
  }

  // The last backend that is not delivered decides.
  predicate LastUndelivered(h: Host, s: Subject, bs: seq<Backend>, j: nat)
    requires j < |bs|
  {
    !Delivered(h, s, bs[j]) && forall k :: j < k < |bs| ==> Delivered(h, s, bs[k])
  }

  lemma {:induction false} CheckExactly(h: Host, s: Subject, b: Backend, before: Option<TargetError>)
    ensures BackendCheck(h, s, b, before) ==
            if Delivered(h, s, b) then before
            else if Foreign(s, b) then Some(MixedImage) else Some(InvalidBackend)
  {
    hide Joined, Identified;
  }

  lemma {:induction false} AllDelivered(h: Host, s: Subject, bs: seq<Backend>, before: Option<TargetError>)
    requires forall k :: 0 <= k < |bs| ==> Delivered(h, s, bs[k])
    ensures BackendChecks(h, s, bs, before) == before
  {
    hide Delivered, BackendCheck;
    if bs != [] {
      var n := |bs| - 1;
      AllDelivered(h, s, bs[..n], before);
      CheckExactly(h, s, bs[n], before);
    }
  }

  lemma {:induction false} LastDecides(h: Host, s: Subject, bs: seq<Backend>, before: Option<TargetError>, j: nat)
    requires j < |bs| && LastUndelivered(h, s, bs, j)
    ensures BackendChecks(h, s, bs, before) == Some(if Foreign(s, bs[j]) then MixedImage else InvalidBackend)
  {
    hide Delivered, Foreign, BackendCheck;
    var n := |bs| - 1;
    CheckExactly(h, s, bs[n], BackendChecks(h, s, bs[..n], before));
    if j < n {
      assert bs[..n][j] == bs[j];
      LastDecides(h, s, bs[..n], before, j);
    }
  }

  // The pods of the target are distinct and in order, and its keys too.
  predicate InOrder(t: Target) {
    && |PodUids(t.backends)| == |t.backends|
    && Increasing(StringLess, PodUids(t.backends))
    && Increasing(TupleLess, OrderKeys(t.backends))
  }

  /**
    Which error a target is classified as: that of its last undelivered backend, if there is one; otherwise bad
    order, no backends, too many of them, and then a foreign namespace, service or policy set.
   */
  lemma {:induction false} ClassificationExactly(h: Host, s: Subject, t: Target)
    ensures forall j: nat :: j < |t.backends| && LastUndelivered(h, s, t.backends, j) ==>
              Classify(h, s, t) == Some(if Foreign(s, t.backends[j]) then MixedImage else InvalidBackend)
    ensures (forall k :: 0 <= k < |t.backends| ==> Delivered(h, s, t.backends[k])) ==>
              Classify(h, s, t) ==
              if t.backends == [] then Some(EmptyBackendSet)
              else if !InOrder(t) then Some(InvalidBackend)
              else if |t.backends| > 3 then Some(ExcessBackendSet)
              else if Admitted(h, s, t) then None else Some(InvalidBackend)
    ensures Classify(h, s, t) == Some(EmptyBackendSet) <==> t.backends == []
  {
    hide Delivered, Foreign, BackendCheck, LastUndelivered;
    ClassifyExactly(h, s, t);
    forall j: nat | j < |t.backends| && LastUndelivered(h, s, t.backends, j)
      ensures Classify(h, s, t) == Some(if Foreign(s, t.backends[j]) then MixedImage else InvalidBackend)
    {
      LastDecides(h, s, t.backends, SetCheck(s, t), j);
    }
    if forall k :: 0 <= k < |t.backends| ==> Delivered(h, s, t.backends[k]) {
      AllDelivered(h, s, t.backends, SetCheck(s, t));
    } else {
      var j := FindUndelivered(h, s, t.backends);
    }
  }

  lemma {:induction false} FindUndelivered(h: Host, s: Subject, bs: seq<Backend>) returns (j: nat)
    requires exists k :: 0 <= k < |bs| && !Delivered(h, s, bs[k])
    ensures j < |bs| && LastUndelivered(h, s, bs, j)
  {
    hide Delivered;
    j := |bs| - 1;
    while Delivered(h, s, bs[j])
      invariant 0 <= j < |bs|
      invariant forall k :: j < k < |bs| ==> Delivered(h, s, bs[k])
      invariant exists k :: 0 <= k <= j && !Delivered(h, s, bs[k])
      decreases j
    {
      j := j - 1;
    }
  }

  // ---------------------------------------------------------------- one condition

  // The r attempts from i on all pass.
  predicate Row(vs: seq<Verdict>, i: nat, r: nat) {
    i + r <= |vs| && forall j :: i <= j < i + r ==> vs[j] == Pass
  }

  predicate HasRow(vs: seq<Verdict>, r: nat) {
    exists i: nat :: i <= |vs| && Row(vs, i, r)
  }

  lemma {:induction false} StreakExactly(vs: seq<Verdict>, r: nat)
    requires r <= |vs|
    ensures Streak(vs) >= r <==> Row(vs, |vs| - r, r)
  {
    if r > 0 {
      var n := |vs| - 1;
      StreakExactly(vs[..n], r - 1);
      if Row(vs, |vs| - r, r) {
        assert vs[n] == Pass;
        assert Row(vs[..n], n - (r - 1), r - 1);
      }
      if vs[n] == Pass && Row(vs[..n], n - (r - 1), r - 1) {
        assert forall j :: n - (r - 1) <= j < n ==> vs[..n][j] == vs[j];
      }
    }
  }

  /** The achieved count is the length of the longest row of passes, up to three. */
  lemma {:induction false} AchievedExactly(vs: seq<Verdict>, r: nat)
    requires 1 <= r <= 3
    ensures Achieved(vs) >= r <==> HasRow(vs, r)
  {
    StreakMeans(vs);
    if vs != [] {
      var n := |vs| - 1;
      AchievedExactly(vs[..n], r);
      if r <= |vs| {
        StreakExactly(vs, r);
      }
      if i: nat :| i <= |vs| && Row(vs, i, r) {
        assert i < |vs| - r ==> Row(vs[..n], i, r);
      }
      if i: nat :| i <= n && Row(vs[..n], i, r) {
        assert forall j :: i <= j < i + r ==> vs[..n][j] == vs[j];
        assert Row(vs, i, r);
      }
    }
  }

  // The last three attempts pass.
  predicate EndsWell(vs: seq<Verdict>) {
    |vs| >= 3 && Row(vs, |vs| - 3, 3)
  }

  lemma {:induction false} EndsWellExactly(attempts: seq<Attempt>)
    requires Paced(attempts)
    ensures Achieved(States(attempts)) == 3 <==> EndsWell(States(attempts))
  {
    hide Achieved, States, Streak;
    var vs, n := States(attempts), |attempts|;
    StreakMeans(vs);
    AchievedExactly(vs, 3);
    if Achieved(vs) == 3 && n > 0 {
      assert vs[..n - 1] == States(attempts[..n - 1]);
      if n == 1 {
        FirstIsNotThird(vs);
      }
      LastThreePass(vs);
    }
    if n == 0 {
      NothingAchieved();
    }
  }

  lemma {:induction false} NothingAchieved()
    ensures Achieved([]) == 0
  {
  }

  lemma {:induction false} FinalExactly(vs: seq<Verdict>)
    ensures Achieved(vs) == 3 ==> FinalState(vs) == Pass
    ensures Achieved(vs) != 3 ==>
              && (FinalState(vs) == ProbeError <==> ProbeError in vs)
              && (FinalState(vs) == Fail <==> Fail in vs && ProbeError !in vs)
              && (FinalState(vs) == Inconclusive <==> Fail !in vs && ProbeError !in vs)
  {
    hide Achieved, NonPass, StateFrom;
    NonPassMeans(vs);
    NonPassWithin(vs);
    ReductionExactly(NonPass(vs));
    if NonPass(vs) != [] {
      assert NonPass(vs)[0] in NonPass(vs);
    }
  }

  lemma {:induction false} NonPassWithin(vs: seq<Verdict>)
    ensures forall v :: v in NonPass(vs) ==> v in vs
  {
    if vs != [] {
      NonPassWithin(vs[..|vs| - 1]);
    }
  }

  /**
    The verdicts on an accepted condition, each exactly, from the verdicts on its attempts: a pass for three
    passes at the end, a probe error for one at the end, and otherwise a failure if there was one.
   */
  lemma {:induction false} ConditionVerdictsExactly(h: Host, s: Subject, d: Descriptor, c: Condition)
    requires ConditionOk(h, s, d, c)
    ensures var vs, n := States(c.attempts), |c.attempts|;
            && (c.state == Pass <==> EndsWell(vs))
            && (c.state == ProbeError <==> n > 0 && vs[n - 1] == ProbeError)
            && (c.state == Fail <==> !EndsWell(vs) && ProbeError !in vs && Fail in vs)
            && (c.state == Inconclusive <==> !EndsWell(vs) && ProbeError !in vs && Fail !in vs)
    // A probe error is always the last attempt.
    ensures ProbeError in States(c.attempts) ==> c.state == ProbeError
    ensures forall r: nat :: 1 <= r <= 3 ==> (c.achieved >= r <==> HasRow(States(c.attempts), r))
  {
    hide AttemptOk, Matches, Achieved, States, FinalState, Row, HasRow;
    var vs, n := States(c.attempts), |c.attempts|;
    EndsWellExactly(c.attempts);
    FinalExactly(vs);
    forall r: nat | 1 <= r <= 3 ensures c.achieved >= r <==> HasRow(vs, r) {
      AchievedExactly(vs, r);
    }
    if ProbeError in vs {
      var k :| 0 <= k < n && vs[k] == ProbeError;
      assert k == n - 1;
    }
    if EndsWell(vs) {
      LastOfRow(vs);
    }
    assert n > 0 ==> vs[n - 1] in vs;
  }

  lemma {:induction false} LastOfRow(vs: seq<Verdict>)
    requires EndsWell(vs)
    ensures vs[|vs| - 1] == Pass
  {
  }

  /** How an accepted condition ended, from its attempts. */
  lemma {:induction false} TerminationExactly(h: Host, s: Subject, d: Descriptor, c: Condition)
    requires ConditionOk(h, s, d, c)
    ensures var vs, n := States(c.attempts), |c.attempts|;
            var stopped := n > 0 && vs[n - 1] == ProbeError;
            c.termination ==
            if EndsWell(vs) then ConditionSatisfied
            else if stopped then StoppedOnProbeError
            else if n == 5 then AttemptsExhausted else RunDeadline
  {
    hide AttemptOk, Matches, Achieved, States, FinalState, EndsWell, Paced, StopsOnProbeError;
    ConditionVerdictsExactly(h, s, d, c);
  }

  // ---------------------------------------------------------------- the summary of a run

  /** The verdicts of the three paths of an accepted document: two single conditions, and the worst of the rest. */
  lemma {:induction false} PathResultsExactly(h: Host, s: Subject, r: ResultDoc)
    requires Accepted(h, s, r)
    ensures |r.conditionRuns| == |s.acceptance| + 2
    ensures var cs := r.conditionRuns;
            var contract := if s.acceptance == [] then Inconclusive else StateFrom(FinalStates(cs[2..]));
            r.pathResults == [PathResult(RuntimeHealth, cs[0].state, cs[0].state == Pass),
                              PathResult(RuntimeReadiness, cs[1].state, cs[1].state == Pass),
                              PathResult(RequestContract, contract, contract == Pass)]
  {
    hide RunsOk, SubjectOk, CompletionOf, StartOf, PathStates, FinalStates;
    var cs := r.conditionRuns;
    AcceptedShape(h, s, r);
    PathStatesOf(cs);
    OneVerdict(cs[0].state);
    OneVerdict(cs[1].state);
  }

  lemma {:induction false} OneVerdict(v: Verdict)
    ensures StateFrom([v]) == v
  {
    assert v in [v];
  }

  lemma {:induction false} TimelineEnds(cs: seq<Condition>)
    requires cs != []
    ensures cs[0].attempts != [] ==> Timeline(cs) != [] && Timeline(cs)[0] == cs[0].attempts[0]
    ensures var last := cs[|cs| - 1].attempts;
            last != [] ==> Timeline(cs) != [] && Timeline(cs)[|Timeline(cs)| - 1] == last[|last| - 1]
    ensures (forall k :: 0 <= k < |cs| ==> cs[k].attempts == []) ==> Timeline(cs) == []
  {
    var n := |cs| - 1;
    if n > 0 {
      TimelineEnds(cs[..n]);
    } else {
      assert cs[..0] == [] && Timeline(cs[..0]) == [];
    }
  }

  // The condition ended for want of time: no three passes, no probe error, and not five attempts.
  predicate OutOfTime(c: Condition) {
    var vs, n := States(c.attempts), |c.attempts|;
    !EndsWell(vs) && !(n > 0 && vs[n - 1] == ProbeError) && n != 5
  }

  /**
    The clock of an accepted document: it starts with the first attempt, and completes at the deadline if some
    condition ran out of time, with attempts or without, and otherwise with the last attempt of the last one.
   */
  lemma {:induction false} RunClockExactly(h: Host, s: Subject, r: ResultDoc)
    requires Accepted(h, s, r)
    ensures var cs := r.conditionRuns;
            && |cs| >= 2
            && r.startedAt == (if cs[0].attempts == [] then s.issuedAt else cs[0].attempts[0].startedAt)
            && if exists k :: 0 <= k < |cs| && OutOfTime(cs[k]) then r.completedAt == s.deadline
               else
                 var last := cs[|cs| - 1].attempts;
                 last != [] && r.completedAt == last[|last| - 1].completedAt
  {
    hide RunsOk, SubjectOk, ConditionOk, Timeline, PathVerdict, Aggregate, OutOfTime;
    var cs, ds := r.conditionRuns, Descriptors(s.acceptance);
    forall k | 0 <= k < |cs| ensures cs[k].termination == RunDeadline <==> OutOfTime(cs[k]) {
      ConditionAt(h, s, ds, cs, k);
      OutOfTimeExactly(h, s, ds[k], cs[k]);
    }
    TimelineEnds(cs);
    var last := |cs| - 1;
    ConditionAt(h, s, ds, cs, last);
    if cs[last].attempts == [] {
      NoAttemptsMeansDeadline(h, s, ds[last], cs[last]);
    }
    if cs[0].attempts == [] {
      forall k | 0 <= k < |cs| ensures cs[k].attempts == [] {
        if k > 0 {
          DeadlineShape(h, s, r, 0, k);
        }
      }
    }
  }

  lemma {:induction false} OutOfTimeExactly(h: Host, s: Subject, d: Descriptor, c: Condition)
    requires ConditionOk(h, s, d, c)
    ensures c.termination == RunDeadline <==> OutOfTime(c)
  {
    hide ConditionOk, States, EndsWell;
    TerminationExactly(h, s, d, c);
  }
}
