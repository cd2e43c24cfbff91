/**
  An accepted bundle with an observed path, and a request that is accepted against it: the
  results about accepted bundles are about something.
*/
module BundleWitness {
  import opened BundleModel
  import opened BundleWorkflow
  import opened BundleTheorems

  // Inspect, freeze, author and validate, and then the observer chain; every step needs the one before it.
  function Steps(n: nat): (workflow: seq<Step>)
    requires n <= 15
    ensures |workflow| == n
  {
    if n == 0 then [] else Steps(n - 1) + [Step(Id(n - 1), Action(n - 1), if n == 1 then [] else [Id(n - 2)])]
  }

  function Id(k: nat): string
    requires k < 15
  {
    if k == 0 then "inspect-source"
    else if k == 1 then "freeze-http-conditions"
    else if k == 2 then "author-change"
    else if k == 3 then "validate-change"
    else OBSERVER_CHAIN[k - 4].0
  }

  function Action(k: nat): string
    requires k < 15
  {
    if k == 0 then "source.inspect/v1"
    else if k == 1 then "verification.freeze-http-conditions/v1"
    else if k == 2 then "source.author-change/v1"
    else if k == 3 then "verification.run-source-gates/v1"
    else OBSERVER_CHAIN[k - 4].1
  }

  lemma {:induction false} StepAt(n: nat, k: nat)
    requires k < n <= 15
    ensures Steps(n)[k] == Step(Id(k), Action(k), if k == 0 then [] else [Id(k - 1)])
  {
    hide Id, Action;
    if k < n - 1 {
      StepAt(n - 1, k);
    }
  }

  // Where a step is, by the length and the first letter of its identifier.
  function Place(id: string): int
    requires id != ""
  {
    match |id|
    case 13 => 2
    case 14 => if id[0] == 'i' then 0 else if id[0] == 'o' then 9 else 12
    case 15 => 3
    case 17 => 4
    case 22 => if id[0] == 'f' then 1 else if id[0] == 'a' then 7 else 14
    case 23 => 13
    case 25 => if id[0] == 'p' then 6 else 8
    case 26 => 10
    case 27 => 11
    case _ => 5
  }

  lemma {:induction false} PlaceOfId(k: nat)
    requires k < 15
    ensures Id(k) != "" && Place(Id(k)) == k
  {
  }

  lemma {:induction false} StepsAreOrdered()
    ensures WellOrdered(Steps(15))
    ensures forall k: nat :: k < 15 ==> Find(Steps(15), Id(k)) == Some(Steps(15)[k])
  {
    hide Id, Action, Place, Steps, Find;
    var workflow := Steps(15);
    forall i: nat | i < 15 ensures workflow[i].id == Id(i) && Id(i) != "" && Place(Id(i)) == i {
      StepAt(15, i);
      PlaceOfId(i);
    }
    forall i: nat | i < 15
      ensures forall need :: need in workflow[i].needs ==> exists j :: 0 <= j < i && workflow[j].id == need
    {
      StepAt(15, i);
      if i > 0 {
        assert workflow[i - 1].id == Id(i - 1);
      }
    }
    forall k: nat | k < 15 ensures Find(workflow, Id(k)) == Some(workflow[k]) {
      FindMeans(workflow, Id(k), k);
    }
  }

  // The step k does what it should, and needs only the one before it.
  lemma {:induction false} StepDoes(k: nat)
    requires k < 15
    ensures Does(Steps(15), Id(k), Action(k))
    ensures k > 0 ==> NeedsOnly(Steps(15), Id(k), Id(k - 1))
  {
    hide Id, Action, Steps, Find, WellOrdered;
    StepsAreOrdered();
    StepAt(15, k);
  }

  lemma {:induction false} StepsAreChained()
    ensures ObserverChained(Steps(15)) && ConditionsFrozen(Steps(15))
    ensures Does(Steps(15), "validate-change", "verification.run-source-gates/v1")
    ensures Does(Steps(15), "await-human-merge", "delivery.await-human-merge/v1")
  {
    hide Does, NeedsOnly, Steps;
    forall k | 0 <= k < 11
      ensures Does(Steps(15), OBSERVER_CHAIN[k].0, OBSERVER_CHAIN[k].1)
      ensures k > 0 ==> NeedsOnly(Steps(15), OBSERVER_CHAIN[k].0, OBSERVER_CHAIN[k - 1].0)
    {
      StepDoes(k + 4);
    }
    StepDoes(1);
    StepDoes(2);
    StepDoes(3);
    StepDoes(4);
  }

  function OnePath(): Bundle {
    Bundle(map["product" := Product(Validated, {"path"})],
           map["entity" := EntityClass(Validated, {"realm"}, {"mechanism"})],
           map["realm" := Realm({"path"}, {Validated})],
           map["delivery" := DeliveryProfile(V2, "path", Validated, "mechanism", "policy", "probe")],
           map["probe" := ProbeProfile(Validated, "path", "delivery", "realm")],
           map["path" := Path(V2, Validated, "product", Some("delivery"), ["entity"], ["realm"], Steps(15),
                              {"policy", "delivery.platform-observer-access/v1"})],
           {})
  }

  lemma {:induction false} PathIsOk()
    ensures PathOk(OnePath(), "path", OnePath().paths["path"])
  {
    hide WellOrdered, ObserverChained, ConditionsFrozen, Does, Steps;
    StepsAreOrdered();
    StepsAreChained();
    assert OnePath().paths["path"].entityClasses[0] == "entity";
  }

  /** Some bundle with an observed path is accepted, and some request against it. */
  lemma {:induction false} SomethingIsClosed()
    ensures Closed(OnePath()) && Observed(OnePath(), "path")
    ensures RequestOk(OnePath(), Request("product", "path", "realm"))
  {
    hide PathOk, Steps;
    PathIsOk();
    assert "delivery" in ReferencedProfiles(OnePath()) by {
      assert Names(OnePath().paths["path"].deliveryProfile);
    }
    assert "probe" in ReferencedProbes(OnePath()) by {
      assert OnePath().deliveries["delivery"].version == V2;
    }
  }
}
