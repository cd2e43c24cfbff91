/**
  What an accepted result document says about the run: its evidence is sound, its
  verdicts are a function of its raw observations, and its clock adds up.
*/
module ProbeTheorems {
  import opened ProbeOrdering
  import opened ProbeModel
  import opened ProbeValidator

  // ---------------------------------------------------------------- targets

  // One backend of the delivered image, joined to the frozen service.
  predicate Delivered(h: Host, s: Subject, b: Backend) {
    && Identified(b) && Joined(h, s, b) && h.addressVersion(b.address).Some?
    && b.imageDigest == Some(s.delivery.imageDigest) && ImageIdMatches(b)
  }

  // One to three distinct delivered backends behind the frozen namespace, service and network policies.
  predicate Admitted(h: Host, s: Subject, t: Target) {
    && t.namespaceUid == s.realm.namespaceUid && t.namespaceResourceVersion == s.realm.namespaceResourceVersion
    && t.serviceUid == s.service.uid && t.serviceResourceVersion == s.service.resourceVersion
    && t.serviceRoutingSpecDigest == s.service.routingSpecDigest
    && t.networkPolicySetDigest == s.delivery.networkPolicySetDigest
    && 1 <= |t.backends| <= 3
    && (forall k :: 0 <= k < |t.backends| ==> Delivered(h, s, t.backends[k]))
    && Increasing(StringLess, PodUids(t.backends))
  }

  lemma {:induction false} PodsOfAll(bs: seq<Backend>)
    requires forall k :: 0 <= k < |bs| ==> bs[k].podUid.Some?
    ensures |PodUids(bs)| == |bs|
    ensures forall k :: 0 <= k < |bs| ==> PodUids(bs)[k] == bs[k].podUid.value
  {
    if bs != [] {
      PodsOfAll(bs[1..]);
    }
  }

  // With a pod behind every backend, the order of the keys is the order of the pods.
  lemma {:induction false} KeysFollowPods(bs: seq<Backend>)
    requires forall k :: 0 <= k < |bs| ==> bs[k].podUid.Some?
    requires Increasing(StringLess, PodUids(bs))
    ensures Increasing(TupleLess, OrderKeys(bs))
  {
    PodsOfAll(bs);
    var keys := OrderKeys(bs);
    forall k | 0 < k < |keys| ensures TupleLess(keys[k - 1], keys[k]) {
      var a, b := keys[k - 1], keys[k];
      assert StringLess(PodUids(bs)[k - 1], PodUids(bs)[k]);
      assert a[0] == b[0] && StringLess(a[1..][0], b[1..][0]);
      assert TupleLess(a[1..], b[1..]);
    }
  }

  lemma {:induction false} CheckPasses(h: Host, s: Subject, b: Backend, before: Option<TargetError>)
    ensures BackendCheck(h, s, b, before) == None <==> before == None && Delivered(h, s, b)
  {
    hide Joined, Identified;
  }

  lemma {:induction false} ChecksPass(h: Host, s: Subject, bs: seq<Backend>, before: Option<TargetError>)
    ensures BackendChecks(h, s, bs, before) == None <==>
              before == None && forall k :: 0 <= k < |bs| ==> Delivered(h, s, bs[k])
  {
    hide Delivered, BackendCheck;
    if bs != [] {
      var n := |bs| - 1;
      ChecksPass(h, s, bs[..n], before);
      CheckPasses(h, s, bs[n], BackendChecks(h, s, bs[..n], before));
      assert forall k :: 0 <= k < n ==> bs[..n][k] == bs[k];
    }
  }

  /** No check of a target fails exactly when the target is admitted. */
  lemma {:induction false} ClassifyExactly(h: Host, s: Subject, t: Target)
    ensures Classify(h, s, t) == None <==> Admitted(h, s, t)
  {
    hide Joined, Identified, ImageIdMatches;
    ChecksPass(h, s, t.backends, SetCheck(s, t));
    if forall k :: 0 <= k < |t.backends| ==> Delivered(h, s, t.backends[k]) {
      forall k | 0 <= k < |t.backends| ensures t.backends[k].podUid.Some? {
        HasPod(h, s, t.backends[k]);
      }
      PodsOfAll(t.backends);
      if Increasing(StringLess, PodUids(t.backends)) {
        KeysFollowPods(t.backends);
      }
    }
  }

  lemma {:induction false} HasPod(h: Host, s: Subject, b: Backend)
    requires Delivered(h, s, b)
    ensures b.podUid.Some? && b.imageDigest == Some(s.delivery.imageDigest)
  {
  }

  // ---------------------------------------------------------------- reductions

  // Position in the precedence: the worst verdict is the smallest.
  function Rank(v: Verdict): nat {
    match v
    case ProbeError => 0
    case Fail => 1
    case Inconclusive => 2
    case Pass => 3
  }

  /** The reduction of a non-empty list is the worst of its members. */
  lemma {:induction false} StateFromIsWorst(vs: seq<Verdict>)
    requires vs != []
    ensures StateFrom(vs) in vs
    ensures forall k :: 0 <= k < |vs| ==> Rank(StateFrom(vs)) <= Rank(vs[k])
  {
    assert vs[0] in vs;
    forall k | 0 <= k < |vs| ensures Rank(StateFrom(vs)) <= Rank(vs[k]) {
      assert vs[k] in vs;
    }
  }

  lemma {:induction false} WorstIsStateFrom(vs: seq<Verdict>, v: Verdict)
    requires v in vs && forall k :: 0 <= k < |vs| ==> Rank(v) <= Rank(vs[k])
    ensures StateFrom(vs) == v
  {
    StateFromIsWorst(vs);
  }

  // All the lists, one after the other.
  function Flatten(groups: seq<seq<Verdict>>): seq<Verdict> {
    if groups == [] then [] else groups[0] + Flatten(groups[1..])
  }

  function Reduce(groups: seq<seq<Verdict>>): (vs: seq<Verdict>)
    ensures |vs| == |groups|
    ensures forall k :: 0 <= k < |groups| ==> vs[k] == StateFrom(groups[k])
  {
    if groups == [] then [] else [StateFrom(groups[0])] + Reduce(groups[1..])
  }

  /** Reducing groups and then their verdicts is reducing everything at once, as long as no group is empty. */
  lemma {:induction false} LayeredIsFlat(groups: seq<seq<Verdict>>)
    requires forall k :: 0 <= k < |groups| ==> groups[k] != []
    ensures StateFrom(Reduce(groups)) == StateFrom(Flatten(groups))
  {
    if groups != [] {
      LayeredIsFlat(groups[1..]);
      var rest := groups[1..];
      if rest != [] {
        assert Flatten(rest) != [] by {
          assert rest[0] != [];
        }
        SplitReduction([StateFrom(groups[0])], Reduce(rest));
        SplitReduction(groups[0], Flatten(rest));
        StateFromIsWorst([StateFrom(groups[0])]);
      } else {
        assert Flatten(groups) == groups[0];
        assert Reduce(groups) == [StateFrom(groups[0])];
        StateFromIsWorst(groups[0]);
      }
    }
  }

  // The verdict of two lists depends only on their own verdicts.
  lemma {:induction false} SplitReduction(a: seq<Verdict>, b: seq<Verdict>)
    requires a != [] && b != []
    ensures StateFrom(a + b) == (if Rank(StateFrom(a)) <= Rank(StateFrom(b)) then StateFrom(a) else StateFrom(b))
  {
    StateFromIsWorst(a);
    StateFromIsWorst(b);
    var v := if Rank(StateFrom(a)) <= Rank(StateFrom(b)) then StateFrom(a) else StateFrom(b);
    assert v in a + b;
    WorstIsStateFrom(a + b, v);
  }

  /** An empty group makes the layered verdict anything but a pass, whatever the flat one is. */
  lemma {:induction false} EmptyGroupNeverPasses(groups: seq<seq<Verdict>>, k: nat)
    requires k < |groups| && groups[k] == []
    ensures StateFrom(Reduce(groups)) != Pass
  {
    StateFromIsWorst(Reduce(groups));
    assert Reduce(groups)[k] == Inconclusive;
  }

  // ---------------------------------------------------------------- streaks

  lemma {:induction false} StreakMeans(vs: seq<Verdict>)
    ensures Streak(vs) <= |vs|
    ensures forall k :: |vs| - Streak(vs) <= k < |vs| ==> vs[k] == Pass
    ensures Achieved(vs) <= 3
  {
    if vs != [] {
      StreakMeans(vs[..|vs| - 1]);
    }
  }

  /** Three passes in a row reached at the last attempt and not before are the last three attempts. */
  lemma {:induction false} LastThreePass(vs: seq<Verdict>)
    requires Achieved(vs) == 3
    requires vs != [] ==> Achieved(vs[..|vs| - 1]) != 3
    ensures |vs| >= 3
    ensures vs[|vs| - 3] == vs[|vs| - 2] == vs[|vs| - 1] == Pass
  {
    StreakMeans(vs);
    if vs != [] {
      StreakMeans(vs[..|vs| - 1]);
    }
  }

  lemma {:induction false} NonPassMeans(vs: seq<Verdict>)
    ensures forall v :: v in NonPass(vs) ==> v != Pass
    ensures forall v :: v in vs && v != Pass ==> v in NonPass(vs)
  {
    if vs != [] {
      var n := |vs| - 1;
      NonPassMeans(vs[..n]);
      assert vs == vs[..n] + [vs[n]];
    }
  }

  // A condition passes only by three passes in a row.
  lemma {:induction false} FinalPass(vs: seq<Verdict>)
    ensures FinalState(vs) == Pass <==> Achieved(vs) == 3
  {
    NonPassMeans(vs);
    if NonPass(vs) != [] {
      StateFromIsWorst(NonPass(vs));
    }
  }

  // ---------------------------------------------------------------- the conditions of an accepted document

  /** What acceptance says of each condition by itself and of what came before it. */
  lemma {:induction false} ConditionAt(h: Host, s: Subject, ds: seq<Descriptor>, cs: seq<Condition>, k: nat)
    requires |ds| == |cs| && RunsOk(h, s, ds, cs) && k < |cs|
    ensures ConditionOk(h, s, ds[k], cs[k])
    ensures DeadlineReached(cs[..k]) ==> cs[k].attempts == []
    ensures Continues(Timeline(cs[..k]), cs[k].attempts)
  {
    hide ConditionOk, Continues;
    PrefixOk(h, s, ds, cs, k + 1);
    assert cs[..k + 1][..k] == cs[..k] && ds[..k + 1][..k] == ds[..k];
  }

  lemma {:induction false} DescriptorAt(acceptance: seq<Acceptance>, k: nat)
    requires k < |acceptance| + 2
    ensures var d := Descriptors(acceptance)[k];
            if k == 0 then d == FixedDescriptors()[0]
            else if k == 1 then d == FixedDescriptors()[1]
            else d.pathId == RequestContract && d.path == acceptance[k - 2].path
                 && d.expected == acceptance[k - 2].expected && d.ordinal == acceptance[k - 2].ordinal
    decreases |acceptance|
  {
    if acceptance != [] && k < |acceptance| + 1 {
      DescriptorAt(acceptance[..|acceptance| - 1], k);
    }
  }

  // The final states of conditions from index a on.
  function FinalStates(cs: seq<Condition>): (vs: seq<Verdict>)
    ensures |vs| == |cs|
    ensures forall k :: 0 <= k < |cs| ==> vs[k] == cs[k].state
  {
    if cs == [] then [] else FinalStates(cs[..|cs| - 1]) + [cs[|cs| - 1].state]
  }

  // Health first, readiness second, the request contract in all others.
  predicate Shaped(cs: seq<Condition>) {
    forall k :: 0 <= k < |cs| ==>
                  cs[k].pathId == (if k == 0 then RuntimeHealth
                                   else if k == 1 then RuntimeReadiness else RequestContract)
  }

  lemma {:induction false} OneMorePathState(cs: seq<Condition>, n: nat, id: PathId)
    requires n < |cs|
    ensures PathStates(cs[..n + 1], id) == PathStates(cs[..n], id) + (if cs[n].pathId == id then [cs[n].state] else [])
  {
    assert cs[..n + 1][..n] == cs[..n];
  }

  lemma {:induction false} FixedPathStates(cs: seq<Condition>, id: PathId)
    requires Shaped(cs) && |cs| >= 2
    ensures PathStates(cs[..2], id) ==
            if id == RuntimeHealth then [cs[0].state] else if id == RuntimeReadiness then [cs[1].state] else []
  {
    hide PathStates;
    OneMorePathState(cs, 0, id);
    OneMorePathState(cs, 1, id);
    assert cs[..0] == [];
    NoPathState(id);
  }

  lemma {:induction false} NoPathState(id: PathId)
    ensures PathStates([], id) == []
  {
  }

  lemma {:induction false} PathStatesUpTo(cs: seq<Condition>, n: nat, id: PathId)
    requires Shaped(cs) && 2 <= n <= |cs|
    ensures PathStates(cs[..n], id) ==
            PathStates(cs[..2], id) + (if id == RequestContract then FinalStates(cs[2..n]) else [])
    decreases n
  {
    hide PathStates, FinalStates;
    if n > 2 {
      PathStatesUpTo(cs, n - 1, id);
      OneMorePathState(cs, n - 1, id);
      assert FinalStates(cs[2..n]) == FinalStates(cs[2..n - 1]) + [cs[n - 1].state];
    } else {
      assert FinalStates(cs[2..2]) == [];
    }
  }

  lemma {:induction false} PathStatesOf(cs: seq<Condition>)
    requires Shaped(cs) && |cs| >= 2
    ensures PathStates(cs, RuntimeHealth) == [cs[0].state]
    ensures PathStates(cs, RuntimeReadiness) == [cs[1].state]
    ensures PathStates(cs, RequestContract) == FinalStates(cs[2..])
  {
    hide PathStates, FinalStates;
    var n := |cs|;
    assert cs[..n] == cs && cs[2..n] == cs[2..];
    forall id ensures PathStates(cs, id) ==
                      PathStates(cs[..2], id) + (if id == RequestContract then FinalStates(cs[2..]) else []) {
      PathStatesUpTo(cs, n, id);
    }
    FixedPathStates(cs, RuntimeHealth);
    FixedPathStates(cs, RuntimeReadiness);
    FixedPathStates(cs, RequestContract);
  }

  lemma {:induction false} AcceptedShape(h: Host, s: Subject, r: ResultDoc)
    requires Accepted(h, s, r)
    ensures Shaped(r.conditionRuns) && |r.conditionRuns| >= 2
  {
    hide RunsOk, SubjectOk, SummaryOk, ConditionOk;
    var cs, ds := r.conditionRuns, Descriptors(s.acceptance);
    forall k | 0 <= k < |cs|
      ensures cs[k].pathId == (if k == 0 then RuntimeHealth else if k == 1 then RuntimeReadiness else RequestContract)
    {
      ConditionAt(h, s, ds, cs, k);
      ConditionPath(h, s, ds[k], cs[k]);
      DescriptorAt(s.acceptance, k);
    }
  }

  lemma {:induction false} ConditionPath(h: Host, s: Subject, d: Descriptor, c: Condition)
    requires ConditionOk(h, s, d, c)
    ensures c.pathId == d.pathId
  {
  }

  // Three lists reduced one by one pass together exactly when none is empty and all members pass.
  lemma {:induction false} AllPass(vs: seq<Verdict>)
    ensures StateFrom(vs) == Pass <==> vs != [] && forall k :: 0 <= k < |vs| ==> vs[k] == Pass
  {
    if vs != [] {
      StateFromIsWorst(vs);
    }
  }

  // The path verdicts of an accepted document, and its aggregate.
  lemma {:induction false} PathVerdicts(h: Host, s: Subject, r: ResultDoc)
    requires Accepted(h, s, r)
    ensures |r.conditionRuns| == |s.acceptance| + 2
    ensures var cs := r.conditionRuns;
            var paths := [StateFrom([cs[0].state]), StateFrom([cs[1].state]), StateFrom(FinalStates(cs[2..]))];
            r.aggregateState == StateFrom(paths) && r.satisfied == (StateFrom(paths) == Pass)
  {
    hide RunsOk, SubjectOk, StateFrom, CompletionOf, StartOf;
    AcceptedShape(h, s, r);
    PathStatesOf(r.conditionRuns);
  }

  /** The run is satisfied exactly when there is something to accept and every condition passes. */
  lemma {:induction false} SatisfiedExactly(h: Host, s: Subject, r: ResultDoc)
    requires Accepted(h, s, r)
    ensures r.satisfied <==>
              && s.acceptance != []
              && forall k :: 0 <= k < |r.conditionRuns| ==> r.conditionRuns[k].state == Pass
  {
    hide Accepted, StateFrom;
    var cs := r.conditionRuns;
    PathVerdicts(h, s, r);
    var contract := FinalStates(cs[2..]);
    var paths := [StateFrom([cs[0].state]), StateFrom([cs[1].state]), StateFrom(contract)];
    AllPass([cs[0].state]);
    AllPass([cs[1].state]);
    AllPass(contract);
    AllPass(paths);
    assert paths[0] == StateFrom([cs[0].state]) && paths[1] == StateFrom([cs[1].state])
           && paths[2] == StateFrom(contract);
    assert [cs[0].state][0] == cs[0].state && [cs[1].state][0] == cs[1].state;
    assert forall k :: 2 <= k < |cs| ==> contract[k - 2] == cs[k].state;
    if forall k :: 0 <= k < |contract| ==> contract[k] == Pass {
      forall k | 2 <= k < |cs| ensures cs[k].state == Pass {
        assert contract[k - 2] == Pass;
      }
    }
  }

  lemma {:induction false} FlattenThree(a: seq<Verdict>, b: seq<Verdict>, c: seq<Verdict>)
    ensures Flatten([a, b, c]) == a + b + c
  {
    assert Flatten([]) == [];
    assert [c][1..] == [];
    assert Flatten([c]) == c;
    assert [b, c][1..] == [c];
    assert Flatten([b, c]) == b + c;
    assert [a, b, c][1..] == [b, c];
  }

  /** With something to accept, the aggregate is the worst final state of all conditions. */
  lemma {:induction false} AggregateIsFlat(h: Host, s: Subject, r: ResultDoc)
    requires Accepted(h, s, r)
    ensures s.acceptance != [] ==> r.aggregateState == StateFrom(FinalStates(r.conditionRuns))
    ensures s.acceptance == [] ==> r.aggregateState != Pass
  {
    hide Accepted, StateFrom;
    var cs := r.conditionRuns;
    PathVerdicts(h, s, r);
    var groups := [[cs[0].state], [cs[1].state], FinalStates(cs[2..])];
    assert r.aggregateState == StateFrom(Reduce(groups)) by {
      assert Reduce(groups) == [StateFrom(groups[0]), StateFrom(groups[1]), StateFrom(groups[2])];
    }
    if s.acceptance != [] {
      LayeredIsFlat(groups);
      FlattenThree(groups[0], groups[1], groups[2]);
      assert groups[0] + groups[1] + groups[2] == FinalStates(cs);
    } else {
      EmptyGroupNeverPasses(groups, 2);
    }
  }
}
