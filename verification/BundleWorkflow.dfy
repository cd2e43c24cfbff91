/**
  Executions of an accepted workflow: any executor that starts a step only once its
  needs are finished, with any number of steps running at the same time.
*/
module BundleWorkflow {
  import opened BundleModel

  datatype Event = Start(step: nat) | Finish(step: nat)

  function Started(run: seq<Event>): set<nat> {
    set k | 0 <= k < |run| && run[k].Start? :: run[k].step
  }

  function Finished(run: seq<Event>): set<nat> {
    set k | 0 <= k < |run| && run[k].Finish? :: run[k].step
  }

  // All needs of step i are finished.
  predicate Ready(workflow: seq<Step>, i: nat, run: seq<Event>)
    requires i < |workflow|
  {
    forall need :: need in workflow[i].needs ==>
                     exists j: nat :: j < |workflow| && workflow[j].id == need && j in Finished(run)
  }

  // The executor may take this event next.
  predicate May(workflow: seq<Step>, run: seq<Event>, e: Event) {
    match e
    case Start(i) => i < |workflow| && i !in Started(run) && Ready(workflow, i, run)
    case Finish(i) => i in Started(run) && i !in Finished(run)
  }

  predicate Legal(workflow: seq<Step>, run: seq<Event>) {
    run == [] || (var n := |run| - 1; Legal(workflow, run[..n]) && May(workflow, run[..n], run[n]))
  }

  ghost predicate AllDone(workflow: seq<Step>, run: seq<Event>) {
    forall i: nat :: i < |workflow| ==> i in Finished(run)
  }

  lemma {:induction false} Extended(run: seq<Event>, e: Event)
    ensures Started(run + [e]) == Started(run) + (if e.Start? then {e.step} else {})
    ensures Finished(run + [e]) == Finished(run) + (if e.Finish? then {e.step} else {})
  {
    var more := run + [e];
    assert forall k :: 0 <= k < |run| ==> more[k] == run[k];
    assert more[|run|] == e;
  }

  lemma {:induction false} NothingYet()
    ensures Started([]) == {} && Finished([]) == {}
  {
  }

  lemma {:induction false} LegalMeans(workflow: seq<Step>, run: seq<Event>)
    requires Legal(workflow, run)
    ensures Finished(run) <= Started(run) && forall i :: i in Started(run) ==> i < |workflow|
    ensures |run| == |Started(run)| + |Finished(run)|
  {
    hide Started, Finished, Ready;
    if run != [] {
      var n := |run| - 1;
      LegalMeans(workflow, run[..n]);
      Extended(run[..n], run[n]);
      assert run == run[..n] + [run[n]];
    } else {
      NothingYet();
    }
  }

  lemma {:induction false} BoundedSet(s: set<nat>, n: nat)
    requires forall i :: i in s ==> i < n
    ensures |s| <= n
    ensures |s| == n ==> forall i: nat :: i < n ==> i in s
  {
    if n > 0 {
      var rest := s - {n - 1};
      BoundedSet(rest, n - 1);
      assert n - 1 in s ==> s == rest + {n - 1};
      assert n - 1 !in s ==> s == rest;
    } else {
      assert s == {};
    }
  }

  /** No legal run is longer than one start and one finish per step. */
  lemma {:induction false} RunsTerminate(workflow: seq<Step>, run: seq<Event>)
    requires Legal(workflow, run)
    ensures |run| <= 2 * |workflow|
    ensures |run| == 2 * |workflow| ==> AllDone(workflow, run)
  {
    LegalMeans(workflow, run);
    BoundedSet(Started(run), |workflow|);
    BoundedSet(Finished(run), |workflow|);
  }

  /** No run of a well-ordered workflow deadlocks: until all steps are done, some event may come next. */
  lemma {:induction false} NoDeadlock(workflow: seq<Step>, run: seq<Event>) returns (e: Event)
    requires WellOrdered(workflow) && Legal(workflow, run) && !AllDone(workflow, run)
    ensures May(workflow, run, e) && Legal(workflow, run + [e])
  {
    LegalMeans(workflow, run);
    if i: nat :| i in Started(run) && i !in Finished(run) {
      e := Finish(i);
    } else {
      var i: nat :| i < |workflow| && i !in Finished(run);
      var first := FirstUnfinished(workflow, run, i);
      forall need | need in workflow[first].needs
        ensures exists j: nat :: j < |workflow| && workflow[j].id == need && j in Finished(run)
      {
        var j :| 0 <= j < first && workflow[j].id == need;
        assert j in Finished(run);
      }
      e := Start(first);
    }
    assert (run + [e])[..|run|] == run;
  }

  lemma {:induction false} FirstUnfinished(workflow: seq<Step>, run: seq<Event>, i: nat) returns (first: nat)
    requires i < |workflow| && i !in Finished(run)
    ensures first <= i && first !in Finished(run) && forall j: nat :: j < first ==> j in Finished(run)
  {
    if j: nat :| j < i && j !in Finished(run) {
      first := FirstUnfinished(workflow, run, j);
    } else {
      first := i;
    }
  }

  /** A legal run that cannot be continued has done every step. */
  lemma {:induction false} MaximalRunsComplete(workflow: seq<Step>, run: seq<Event>)
    requires WellOrdered(workflow) && Legal(workflow, run)
    requires forall e :: !May(workflow, run, e)
    ensures AllDone(workflow, run) && |run| == 2 * |workflow|
  {
    if !AllDone(workflow, run) {
      var e := NoDeadlock(workflow, run);
    }
    LegalMeans(workflow, run);
    BoundedSet(Started(run), |workflow|);
    BoundedSet(Finished(run), |workflow|);
    FullSet(Finished(run), |workflow|);
    FullSet(Started(run), |workflow|);
  }

  lemma {:induction false} FullSet(s: set<nat>, n: nat)
    requires forall i: nat :: i < n ==> i in s
    ensures |s| >= n
  {
    if n > 0 {
      FullSet(s - {n - 1}, n - 1);
    }
  }

  // ---------------------------------------------------------------- order of steps

  lemma {:induction false} PrefixLegal(workflow: seq<Step>, run: seq<Event>, n: nat)
    requires Legal(workflow, run) && n <= |run|
    ensures Legal(workflow, run[..n])
    decreases |run|
  {
    if n < |run| {
      PrefixLegal(workflow, run[..|run| - 1], n);
      assert run[..|run| - 1][..n] == run[..n];
    } else {
      assert run[..n] == run;
    }
  }

  // In the run, everything step b does comes after step a is finished.
  predicate Before(workflow: seq<Step>, run: seq<Event>, a: string, b: string) {
    forall k, i :: 0 <= k < |run| && 0 <= i < |workflow| && run[k] == Start(i) && workflow[i].id == b ==>
                     exists m, j :: 0 <= m < k && 0 <= j < |workflow| && run[m] == Finish(j) && workflow[j].id == a
  }

  lemma {:induction false} FindMeans(workflow: seq<Step>, id: string, i: nat)
    requires WellOrdered(workflow) && i < |workflow| && workflow[i].id == id
    ensures Find(workflow, id) == Some(workflow[i])
    decreases |workflow|
  {
    var n := |workflow| - 1;
    if i < n {
      var front := workflow[..n];
      forall x, y | 0 <= x < y < n ensures front[x].id != front[y].id {
        assert workflow[x].id != workflow[y].id;
      }
      forall x | 0 <= x < n
        ensures forall need :: need in front[x].needs ==> exists j :: 0 <= j < x && front[j].id == need
      {
        assert front[x] == workflow[x];
        forall need | need in front[x].needs ensures exists j :: 0 <= j < x && front[j].id == need {
          var j :| 0 <= j < x && workflow[j].id == need;
          assert front[j].id == need;
        }
      }
      FindMeans(front, id, i);
    }
  }

  /** A step that needs another starts, in every legal run, only after that one is finished. */
  lemma {:induction false} NeedsGoBefore(workflow: seq<Step>, run: seq<Event>, a: string, b: string)
    requires WellOrdered(workflow) && Legal(workflow, run) && NeedsOnly(workflow, b, a)
    ensures Before(workflow, run, a, b)
  {
    forall k, i | 0 <= k < |run| && 0 <= i < |workflow| && run[k] == Start(i) && workflow[i].id == b
      ensures exists m, j :: 0 <= m < k && 0 <= j < |workflow| && run[m] == Finish(j) && workflow[j].id == a
    {
      FindMeans(workflow, b, i);
      PrefixLegal(workflow, run, k + 1);
      assert run[..k + 1][..k] == run[..k];
      assert May(workflow, run[..k], run[k]);
      assert a in workflow[i].needs;
      var j: nat :| j < |workflow| && workflow[j].id == a && j in Finished(run[..k]);
      var m :| 0 <= m < k && run[..k][m] == Finish(j);
      assert run[m] == Finish(j);
    }
  }

  // A finished step was started before.
  lemma {:induction false} FinishAfterStart(workflow: seq<Step>, run: seq<Event>, m: nat)
    requires Legal(workflow, run) && m < |run| && run[m].Finish?
    ensures exists k :: 0 <= k < m && run[k] == Start(run[m].step)
  {
    PrefixLegal(workflow, run, m + 1);
    assert run[..m + 1][..m] == run[..m];
    assert run[m].step in Started(run[..m]);
    var k :| 0 <= k < m && run[..m][k] == Start(run[m].step);
    assert run[k] == Start(run[m].step);
  }

  lemma {:induction false} BeforeTransitive(workflow: seq<Step>, run: seq<Event>, a: string, b: string, c: string)
    requires Legal(workflow, run) && Before(workflow, run, a, b) && Before(workflow, run, b, c)
    ensures Before(workflow, run, a, c)
  {
    forall k, i | 0 <= k < |run| && 0 <= i < |workflow| && run[k] == Start(i) && workflow[i].id == c
      ensures exists m, j :: 0 <= m < k && 0 <= j < |workflow| && run[m] == Finish(j) && workflow[j].id == a
    {
      var m, j :| 0 <= m < k && 0 <= j < |workflow| && run[m] == Finish(j) && workflow[j].id == b;
      FinishAfterStart(workflow, run, m);
      var k' :| 0 <= k' < m && run[k'] == Start(j);
      var m', j' :| 0 <= m' < k' && 0 <= j' < |workflow| && run[m'] == Finish(j') && workflow[j'].id == a;
    }
  }

  lemma {:induction false} ChainGoesInOrder(workflow: seq<Step>, run: seq<Event>, x: nat, y: nat)
    requires WellOrdered(workflow) && ObserverChained(workflow) && Legal(workflow, run)
    requires x < y < |OBSERVER_CHAIN|
    ensures Before(workflow, run, OBSERVER_CHAIN[x].0, OBSERVER_CHAIN[y].0)
    decreases y - x
  {
    hide Before, Legal, WellOrdered, NeedsOnly;
    NeedsGoBefore(workflow, run, OBSERVER_CHAIN[y - 1].0, OBSERVER_CHAIN[y].0);
    if x < y - 1 {
      ChainGoesInOrder(workflow, run, x, y - 1);
      BeforeTransitive(workflow, run, OBSERVER_CHAIN[x].0, OBSERVER_CHAIN[y - 1].0, OBSERVER_CHAIN[y].0);
    }
  }

  // Some step of the workflow has the identifier and performs the action, and the run finishes it.
  predicate Performed(workflow: seq<Step>, run: seq<Event>, id: string, action: string) {
    exists i :: 0 <= i < |workflow| && workflow[i].id == id && workflow[i].action == action && i in Finished(run)
  }

  lemma {:induction false} FoundIsThere(workflow: seq<Step>, id: string)
    requires Find(workflow, id).Some?
    ensures exists i :: 0 <= i < |workflow| && workflow[i] == Find(workflow, id).value && workflow[i].id == id
  {
    var n := |workflow| - 1;
    if workflow[n].id != id {
      FoundIsThere(workflow[..n], id);
      var i :| 0 <= i < n && workflow[..n][i] == Find(workflow, id).value && workflow[..n][i].id == id;
      assert workflow[i].id == id;
    } else {
      assert workflow[n].id == id;
    }
  }

  lemma {:induction false} DoesIsPerformed(workflow: seq<Step>, run: seq<Event>, id: string, action: string)
    requires Does(workflow, id, action) && AllDone(workflow, run)
    ensures Performed(workflow, run, id, action)
  {
    FoundIsThere(workflow, id);
  }
}
