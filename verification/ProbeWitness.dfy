/**
  A document that is accepted and satisfied, for a host whose digests are all alike: the
  results about accepted documents are about something. It goes to the limits: issued as
  late and run as long as can be, with the longest attempts and responses, the shortest
  pauses, and an expiry at that of the delivery.
*/
module ProbeWitness {
  import opened ProbeOrdering
  import opened ProbeModel
  import opened ProbeTheorems

  function AnyHost(): Host {
    Host(_ => true, (_, _) => true, _ => true,
         _ => "d", _ => "d", _ => "d", _ => "d", _ => "d",
         _ => 0, _ => [], _ => Some(4), us => us / MILLISECOND)
  }

  const FROZEN := Subject(
    "w", "r",
    Realm("preview-w", "preview-w", "n", "1"),
    Service("s", "u", "1", "r", "s.preview-w.svc", 80),
    Delivery(0, 600 * SECOND, "i", "t", "p"),
    [Acceptance(1, "/", StatusOnly)], "d", 300 * SECOND, 540 * SECOND)

  const POD := Backend(
    "e", "f", "1", "d", "s", "endpointslice-controller.k8s.io", "IPv4", "10.0.0.1", Some("Pod"), Some("a"), Some("b"),
    Some("preview-w"), Some("a"), Some("b"), Some("1"), Some("d"), Some("d"), Some("10.0.0.1"),
    Some("ReplicaSet"), Some("g"), Some("h"), Some("g"), Some("h"), Some("1"),
    Some("Deployment"), Some("s"), Some("k"), Some("s"), Some("k"), Some("1"), Some("t"), Some("w"),
    true, true, true, false, false, Some("c"), 1, Some(80), Some(80), true, Some("containerd://" + "i"), Some("i"))

  const ONE_POD := Target("n", "1", "u", "1", "r", "p", "d", "d", 1, [POD])

  const GOOD_RESPONSE :=
    BackendResult("b", Pass, 5000, Some(200), None, 65536, false, None, None, StatusOracle(200, Some(200)))

  // An attempt of so many seconds.
  function GoodAttempt(id: string, ordinal: int, start: int, seconds: int): Attempt {
    Attempt(id, ordinal, start, start + seconds * SECOND, seconds * 1000, ONE_POD, None, [GOOD_RESPONSE], ONE_POD, Pass)
  }

  lemma {:induction false} PodIsDelivered()
    ensures Admitted(AnyHost(), FROZEN, ONE_POD) && Coherent(AnyHost(), ONE_POD)
    ensures PodUids([POD]) == ["b"]
  {
    assert [POD][1..] == [];
  }

  lemma {:induction false} AttemptIsOk(id: string, ordinal: int, start: int, seconds: int)
    requires FROZEN.issuedAt <= start && start + seconds * SECOND <= FROZEN.deadline && 5 <= seconds <= 30
    ensures AttemptOk(AnyHost(), FROZEN, StatusOnly, GoodAttempt(id, ordinal, start, seconds))
  {
    hide Coherent, Classify, Admitted;
    PodIsDelivered();
    ClassifyExactly(AnyHost(), FROZEN, ONE_POD);
    assert BackendStates(AnyHost(), [GOOD_RESPONSE], StatusOnly) == [Pass];
  }

  // Three attempts with pauses of one second.
  function ThreeAttempts(ids: seq<string>, start: int, seconds: int): seq<Attempt>
    requires |ids| == 3
  {
    [GoodAttempt(ids[0], 1, start, seconds),
     GoodAttempt(ids[1], 2, start + (seconds + 1) * SECOND, seconds),
     GoodAttempt(ids[2], 3, start + 2 * (seconds + 1) * SECOND, seconds)]
  }

  function GoodCondition(d: Descriptor, ids: seq<string>, start: int, seconds: int): Condition
    requires |ids| == 3
  {
    Condition(d.id, d.pathId, d.probe, d.ordinal, d.path, "d", ThreeAttempts(ids, start, seconds), 3, Pass,
              ConditionSatisfied)
  }

  lemma {:induction false} ThreePasses(attempts: seq<Attempt>)
    requires |attempts| == 3 && forall k :: 0 <= k < 3 ==> attempts[k].state == Pass
    ensures States(attempts) == [Pass, Pass, Pass]
    ensures Achieved(States(attempts)) == 3
    ensures Achieved(States(attempts[..1])) == 1 && Achieved(States(attempts[..2])) == 2
  {
    var vs := [Pass, Pass, Pass];
    assert States(attempts) == vs && States(attempts[..2]) == vs[..2] && States(attempts[..1]) == vs[..1];
    assert vs[..2][..1] == vs[..1] && vs[..1][..0] == [];
    assert Streak(vs[..1]) == 1 && Achieved(vs[..1]) == 1;
    assert Streak(vs[..2]) == 2 && Achieved(vs[..2]) == 2;
  }

  lemma {:induction false} ConditionIsOk(d: Descriptor, ids: seq<string>, start: int, seconds: int)
    requires |ids| == 3 && d.expected == StatusOnly && FROZEN.issuedAt <= start && 5 <= seconds <= 30
    requires start + (3 * seconds + 2) * SECOND <= FROZEN.deadline
    ensures ConditionOk(AnyHost(), FROZEN, d, GoodCondition(d, ids, start, seconds))
  {
    hide AttemptOk, Achieved, States;
    AttemptIsOk(ids[0], 1, start, seconds);
    AttemptIsOk(ids[1], 2, start + (seconds + 1) * SECOND, seconds);
    AttemptIsOk(ids[2], 3, start + 2 * (seconds + 1) * SECOND, seconds);
    ThreePasses(ThreeAttempts(ids, start, seconds));
  }

  function Expanded(): seq<Descriptor> {
    FixedDescriptors() + [Descriptor(AcceptanceRun(1), RequestContract, "http.request-contract/v1", 1, "/", StatusOnly)]
  }

  function GoodRuns(): seq<Condition> {
    [GoodCondition(Expanded()[0], ["a", "b", "c"], 300 * SECOND, 30),
     GoodCondition(Expanded()[1], ["d", "e", "f"], 392 * SECOND, 30),
     GoodCondition(Expanded()[2], ["g", "h", "i"], 484 * SECOND, 18)]
  }

  lemma {:induction false} GoodTimeline()
    ensures Timeline(GoodRuns()[..0]) == []
    ensures Timeline(GoodRuns()[..1]) == GoodRuns()[0].attempts
    ensures Timeline(GoodRuns()[..2]) == GoodRuns()[0].attempts + GoodRuns()[1].attempts
    ensures Timeline(GoodRuns()) == GoodRuns()[0].attempts + GoodRuns()[1].attempts + GoodRuns()[2].attempts
    ensures !DeadlineReached(GoodRuns())
  {
    var cs := GoodRuns();
    assert cs[..1][..0] == [] && cs[..2][..1] == cs[..1] && cs[..3] == cs;
  }

  lemma {:induction false} RunsAreOk()
    ensures Descriptors(FROZEN.acceptance) == Expanded()
    ensures RunsOk(AnyHost(), FROZEN, Expanded(), GoodRuns())
  {
    hide ConditionOk, Timeline;
    var cs, ds := GoodRuns(), Expanded();
    assert FROZEN.acceptance[..0] == [];
    assert cs[..1][..0] == [] && cs[..2][..1] == cs[..1] && cs[..3] == cs;
    assert ds[..1][..0] == [] && ds[..2][..1] == ds[..1] && ds[..3] == ds;
    GoodTimeline();
    ConditionIsOk(ds[0], ["a", "b", "c"], 300 * SECOND, 30);
    ConditionIsOk(ds[1], ["d", "e", "f"], 392 * SECOND, 30);
    ConditionIsOk(ds[2], ["g", "h", "i"], 484 * SECOND, 18);
    assert RunsOk(AnyHost(), FROZEN, ds[..1], cs[..1]);
    assert RunsOk(AnyHost(), FROZEN, ds[..2], cs[..2]);
  }

  function GoodDocument(): ResultDoc {
    ResultDoc("w", "r", GoodRuns(),
              [PathResult(RuntimeHealth, Pass, true), PathResult(RuntimeReadiness, Pass, true),
               PathResult(RequestContract, Pass, true)],
              Pass, true, 300 * SECOND, 540 * SECOND, 600 * SECOND)
  }

  lemma {:induction false} SubjectIsOk()
    ensures SubjectOk(AnyHost(), FROZEN)
  {
    assert "s" + "." + "preview-w" + ".svc" == "s.preview-w.svc";
    assert "preview-" + "w" == "preview-w";
  }

  lemma {:induction false} SummaryIsOk()
    ensures SummaryOk(FROZEN, GoodDocument())
  {
    hide Timeline, DeadlineReached, PathStates, StateFrom;
    GoodTimeline();
    var cs := GoodRuns();
    assert Shaped(cs);
    PathStatesOf(cs);
    assert cs[2..] == [cs[2]];
    assert FinalStates(cs[2..]) == [Pass];
    AllPass([Pass]);
    AllPass([Pass, Pass, Pass]);
  }

  /** Some document is accepted and satisfied. */
  lemma {:induction false} SomethingIsAccepted()
    ensures Accepted(AnyHost(), FROZEN, GoodDocument()) && GoodDocument().satisfied
  {
    hide RunsOk, SubjectOk, SummaryOk;
    SubjectIsOk();
    RunsAreOk();
    SummaryIsOk();
  }
}
