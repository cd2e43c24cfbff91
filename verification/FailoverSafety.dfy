/**
  What every run of the controller keeps, whatever crashes, registrar errors, failed
  saves and health scores it meets: the persisted walk and its dwell times, the daily
  limit, the spacing of failovers and the evidence behind each of them.
*/
module FailoverSafety {
  import opened FailoverModel

  // ---------------------------------------------------------------- files a run may start from

  // Facts about the file that every step keeps.
  ghost predicate SaneFile(d: Deployment, file: File) {
    file.Valid? ==>
      var s := file.snapshot;
      && 0 <= s.dailyCount
      && (s.state == FailingOver ==>
            && s.dailyCount < d.params.maxDailyFailovers
            && (s.lastFailover.At? ==>
                  s.lastTransition.At? && s.lastTransition.t >= s.lastFailover.t + d.params.failoverCooldown))
  }

  lemma {:induction false} SinceMeans(now: int, s: Stamp, bound: int)
    requires 0 <= bound <= MAX_DURATION
    ensures Since(now, s) >= bound <==> (s.At? ==> now - s.t >= bound)
    // A Go duration, exact where 64 bits hold it.
    ensures -0x8000_0000_0000_0000 <= Since(now, s) <= 0x7fff_ffff_ffff_ffff
    ensures s.At? && -0x8000_0000_0000_0000 <= now - s.t <= 0x7fff_ffff_ffff_ffff ==> Since(now, s) == now - s.t
  {
  }

  /** A step keeps the file, or counts one more bad check, or makes one permitted transition. */
  lemma {:induction false} StepShape(d: Deployment, w: World, i: Input, crash: Crash)
    ensures var s := Loaded(d, w.file, i.t.load);
            var file := Step(d, w, i, crash).file;
            || file == w.file
            || (&& file.Valid? && w.file.Valid? && s.state == Degraded
                && file.snapshot == s.(degradedCount := s.degradedCount + 1, updatedAt := At(i.t.save))
                && PrimaryScore(s, i.scores).Some? && PrimaryScore(s, i.scores).value < DEGRADE_THRESHOLD)
            || (&& file.Valid?
                && Permits(d.params, s, file.snapshot.state, i.t)
                && file.snapshot.lastTransition == At(i.t.stamp)
                && file.snapshot.resetDay == s.resetDay
                && file.snapshot.dailyCount ==
                   s.dailyCount + (if s.state == FailingOver && file.snapshot.state == FailedOver then 1 else 0)
                && file.snapshot.lastFailover ==
                   (if s.state == FailingOver && file.snapshot.state == FailedOver then At(i.t.act)
                    else s.lastFailover))
  {
  }

  lemma {:induction false} StepKeepsSane(d: Deployment, w: World, i: Input, crash: Crash)
    requires d.params.Sane() && i.t.Ordered() && SaneFile(d, w.file)
    ensures SaneFile(d, Step(d, w, i, crash).file)
  {
    hide Step;
    StepShape(d, w, i, crash);
    var s := Loaded(d, w.file, i.t.load);
    SinceMeans(i.t.cool, s.lastFailover, d.params.failoverCooldown);
  }

  lemma {:induction false} RunKeepsSane(d: Deployment, ws: seq<World>, es: seq<Event>, n: nat)
    requires d.params.Sane() && IsRun(d, ws, es) && SaneFile(d, ws[0].file) && n <= |es|
    ensures SaneFile(d, ws[n].file)
  {
    hide Step;
    if n > 0 {
      RunKeepsSane(d, ws, es, n - 1);
      StepKeepsSane(d, ws[n - 1], es[n - 1].input, es[n - 1].crash);
    }
  }

  // ---------------------------------------------------------------- the persisted walk

  /** Each move of the persisted state follows an edge of the transition table. */
  lemma {:induction false} MovesFollowTheTable(d: Deployment, ws: seq<World>, es: seq<Event>, k: nat)
    requires IsRun(d, ws, es) && k < |es| && Moves(ws, k)
    ensures es[k].crash.Survives? && ws[k + 1].file.Valid?
    ensures StateOf(ws[k + 1].file) in Allowed(StateOf(ws[k].file))
    ensures ws[k + 1].file.snapshot.lastTransition == At(es[k].input.t.stamp)
  {
    StepShape(d, ws[k], es[k].input, es[k].crash);
  }

  // Every move before n is stamped no later than the file's own last transition.
  ghost predicate StampsBelow(ws: seq<World>, es: seq<Event>, n: nat)
    requires |ws| == |es| + 1 && n <= |es|
  {
    forall k: nat :: k < n && Moves(ws, k) ==>
                       && ws[n].file.Valid?
                       && ws[n].file.snapshot.lastTransition.At?
                       && ws[n].file.snapshot.lastTransition.t >= es[k].input.t.stamp
  }

  lemma {:induction false} LastTransitionIsLatest(d: Deployment, ws: seq<World>, es: seq<Event>, n: nat)
    requires d.params.Sane() && IsRun(d, ws, es) && n <= |es|
    ensures StampsBelow(ws, es, n)
  {
    hide Step;
    if n > 0 {
      LastTransitionIsLatest(d, ws, es, n - 1);
      var e := es[n - 1];
      StepShape(d, ws[n - 1], e.input, e.crash);
      SinceMeans(e.input.t.dwell, Loaded(d, ws[n - 1].file, e.input.t.load).lastTransition, d.params.minTimeInState);
    }
  }

  /** Two persisted moves are at least the minimum time in a state apart, across crashes and lost saves. */
  lemma {:induction false} MovesDwell(d: Deployment, ws: seq<World>, es: seq<Event>, j: nat, k: nat)
    requires d.params.Sane() && IsRun(d, ws, es) && j < k < |es| && Moves(ws, j) && Moves(ws, k)
    ensures es[k].input.t.stamp - es[j].input.t.stamp >= d.params.minTimeInState
  {
    hide Step;
    LastTransitionIsLatest(d, ws, es, k);
    var e := es[k];
    StepShape(d, ws[k], e.input, e.crash);
    SinceMeans(e.input.t.dwell, Loaded(d, ws[k].file, e.input.t.load).lastTransition, d.params.minTimeInState);
  }

  // The moves among the first n events that are stamped in [from, to].
  ghost function MovesWithin(ws: seq<World>, es: seq<Event>, n: nat, from: int, to: int): nat
    requires |ws| == |es| + 1 && n <= |es|
  {
    if n == 0 then 0
    else MovesWithin(ws, es, n - 1, from, to)
         + (if Moves(ws, n - 1) && from <= es[n - 1].input.t.stamp <= to then 1 else 0)
  }

  // n times m, by repeated addition.
  ghost function Times(n: nat, m: int): int {
    if n == 0 then 0 else Times(n - 1, m) + m
  }

  lemma {:induction false} TimesIsProduct(n: nat, m: int)
    ensures Times(n, m) == n * m
  {
    if n > 0 {
      TimesIsProduct(n - 1, m);
      assert n * m == (n - 1) * m + m;
    }
  }

  lemma {:induction false} ProductsInOrder(a: int, b: int, m: int)
    requires a <= b && m >= 0
    ensures a * m <= b * m
  {
  }

  lemma {:induction false} CountFits(count: nat, m: int, x: nat)
    requires m > 0 && (count > 0 ==> Times(count - 1, m) <= x)
    ensures count <= x / m + 1
  {
    if count >= x / m + 2 {
      TimesIsProduct(count - 1, m);
      ProductsInOrder(x / m + 1, count - 1, m);
      assert false;
    }
  }

  // All moves are at least m apart.
  ghost predicate Spaced(ws: seq<World>, es: seq<Event>, m: int)
    requires |ws| == |es| + 1
  {
    forall j: nat, k: nat :: j < k < |es| && Moves(ws, j) && Moves(ws, k) ==>
                               es[k].input.t.stamp - es[j].input.t.stamp >= m
  }

  lemma {:induction false} MovesFillTheWindow(ws: seq<World>, es: seq<Event>, m: int, n: nat, from: int, to: int)
    returns (last: nat)
    requires |ws| == |es| + 1 && n <= |es| && Spaced(ws, es, m)
    requires MovesWithin(ws, es, n, from, to) > 0
    ensures last < n && Moves(ws, last) && from <= es[last].input.t.stamp <= to
    ensures Times(MovesWithin(ws, es, n, from, to) - 1, m) <= es[last].input.t.stamp - from
  {
    if Moves(ws, n - 1) && from <= es[n - 1].input.t.stamp <= to {
      last := n - 1;
      if MovesWithin(ws, es, n - 1, from, to) > 0 {
        var before := MovesFillTheWindow(ws, es, m, n - 1, from, to);
      }
    } else {
      last := MovesFillTheWindow(ws, es, m, n - 1, from, to);
    }
  }

  lemma {:induction false} RunIsSpaced(d: Deployment, ws: seq<World>, es: seq<Event>)
    requires d.params.Sane() && IsRun(d, ws, es)
    ensures Spaced(ws, es, d.params.minTimeInState)
  {
    hide Step;
    forall j: nat, k: nat | j < k < |es| && Moves(ws, j) && Moves(ws, k)
      ensures es[k].input.t.stamp - es[j].input.t.stamp >= d.params.minTimeInState
    {
      MovesDwell(d, ws, es, j, k);
    }
  }

  /** Any window of time holds at most one move more than the dwell time fits into it. */
  lemma {:induction false} BoundedFlapping(d: Deployment, ws: seq<World>, es: seq<Event>, from: int, to: int)
    requires d.params.Sane() && d.params.minTimeInState > 0 && IsRun(d, ws, es) && from <= to
    ensures MovesWithin(ws, es, |es|, from, to) <= (to - from) / d.params.minTimeInState + 1
  {
    hide Step, Spaced, Moves, MovesWithin, Times;
    var m := d.params.minTimeInState;
    var count := MovesWithin(ws, es, |es|, from, to);
    RunIsSpaced(d, ws, es);
    if count > 0 {
      var last := MovesFillTheWindow(ws, es, m, |es|, from, to);
    }
    CountFits(count, m, to - from);
  }

  // ---------------------------------------------------------------- recorded failovers

  // Event k completes a failover: FAILING_OVER is persisted as FAILED_OVER.
  predicate Records(ws: seq<World>, k: nat)
    requires k + 1 < |ws|
  {
    StateOf(ws[k].file) == FailingOver && StateOf(ws[k + 1].file) == FailedOver
  }

  // Failovers recorded among the first n events by ticks that loaded the state on the given day.
  ghost function RecordedOn(d: Deployment, ws: seq<World>, es: seq<Event>, n: nat, day: int): nat
    requires |ws| == |es| + 1 && n <= |es|
  {
    if n == 0 then 0
    else RecordedOn(d, ws, es, n - 1, day)
         + (if Records(ws, n - 1) && d.dayOf(es[n - 1].input.t.load) == day then 1 else 0)
  }

  // Failovers recorded among the first n events whose LastFailoverTime falls on the given day.
  ghost function StampedOn(d: Deployment, ws: seq<World>, es: seq<Event>, n: nat, day: int): nat
    requires |ws| == |es| + 1 && n <= |es|
  {
    if n == 0 then 0
    else StampedOn(d, ws, es, n - 1, day)
         + (if Records(ws, n - 1) && d.dayOf(es[n - 1].input.t.act) == day then 1 else 0)
  }

  lemma {:induction false} NothingRecordedAhead(d: Deployment, ws: seq<World>, es: seq<Event>, n: nat, day: int)
    requires IsRun(d, ws, es) && n <= |es|
    requires forall k: nat :: k < n ==> d.dayOf(es[k].input.t.load) != day
    ensures RecordedOn(d, ws, es, n, day) == 0
  {
    hide Step;
    if n > 0 {
      NothingRecordedAhead(d, ws, es, n - 1, day);
    }
  }

  lemma {:induction false} LoadsInOrder(d: Deployment, ws: seq<World>, es: seq<Event>, j: nat, k: nat)
    requires IsRun(d, ws, es) && j <= k < |es|
    ensures es[j].input.t.load <= es[k].input.t.load
  {
    hide Step;
  }

  // Ticks on a day before this one leave nothing recorded on it.
  lemma {:induction false} FreshDay(d: Deployment, ws: seq<World>, es: seq<Event>, n: nat)
    requires Calendar(d) && IsRun(d, ws, es) && n < |es|
    requires n > 0 ==> d.dayOf(es[n - 1].input.t.load) != d.dayOf(es[n].input.t.load)
    ensures RecordedOn(d, ws, es, n, d.dayOf(es[n].input.t.load)) == 0
  {
    hide Step;
    forall k: nat | k < n ensures d.dayOf(es[k].input.t.load) != d.dayOf(es[n].input.t.load) {
      LoadsInOrder(d, ws, es, k, n - 1);
      LoadsInOrder(d, ws, es, n - 1, n);
    }
    NothingRecordedAhead(d, ws, es, n, d.dayOf(es[n].input.t.load));
  }

  // After n events, the file either carries the last day's count or nothing was recorded on that day.
  ghost predicate CountCovers(d: Deployment, ws: seq<World>, es: seq<Event>, n: nat, day: int, yearDay: int)
    requires |ws| == |es| + 1 && n <= |es|
  {
    var recorded := RecordedOn(d, ws, es, n, day);
    if ws[n].file.Valid? && ws[n].file.snapshot.resetDay == yearDay
    then recorded <= ws[n].file.snapshot.dailyCount
    else recorded == 0
  }

  lemma {:induction false} CountCoversRun(d: Deployment, ws: seq<World>, es: seq<Event>, n: nat, t: int)
    requires d.params.Sane() && Calendar(d) && IsRun(d, ws, es) && SaneFile(d, ws[0].file) && n <= |es|
    requires n > 0 ==> es[n - 1].input.t.load <= t
    ensures CountCovers(d, ws, es, n, d.dayOf(t), d.yearDay(t))
    ensures RecordedOn(d, ws, es, n, d.dayOf(t)) <=
            (if d.params.maxDailyFailovers > 0 then d.params.maxDailyFailovers else 0)
    decreases n
  {
    hide Step;
    RunKeepsSane(d, ws, es, n);
    if n > 0 {
      var e := es[n - 1];
      RunKeepsSane(d, ws, es, n - 1);
      if n > 1 {
        LoadsInOrder(d, ws, es, n - 2, n - 1);
      }
      CountCoversRun(d, ws, es, n - 1, t);
      StepShape(d, ws[n - 1], e.input, e.crash);
      if d.dayOf(e.input.t.load) != d.dayOf(t) {
        forall k: nat | k < n ensures d.dayOf(es[k].input.t.load) != d.dayOf(t) {
          LoadsInOrder(d, ws, es, k, n - 1);
        }
        NothingRecordedAhead(d, ws, es, n, d.dayOf(t));
      }
    }
  }

  lemma {:induction false} LoadKeepsCover(d: Deployment, file: File, t: int, recorded: nat)
    requires SaneFile(d, file)
    requires if file.Valid? && file.snapshot.resetDay == d.yearDay(t)
             then recorded <= file.snapshot.dailyCount else recorded == 0
    ensures recorded <= Loaded(d, file, t).dailyCount
  {
  }

  /** The count a tick loads is never below the failovers recorded that day. */
  lemma {:induction false} LoadedCountCovers(d: Deployment, ws: seq<World>, es: seq<Event>, n: nat)
    requires d.params.Sane() && Calendar(d) && IsRun(d, ws, es) && SaneFile(d, ws[0].file) && n < |es|
    ensures RecordedOn(d, ws, es, n, d.dayOf(es[n].input.t.load))
            <= Loaded(d, ws[n].file, es[n].input.t.load).dailyCount
  {
    hide Step;
    var t := es[n].input.t.load;
    if n > 0 {
      LoadsInOrder(d, ws, es, n - 1, n);
    }
    CountCoversRun(d, ws, es, n, t);
    RunKeepsSane(d, ws, es, n);
    LoadKeepsCover(d, ws[n].file, t, RecordedOn(d, ws, es, n, d.dayOf(t)));
  }

  lemma {:induction false} StepCount(d: Deployment, w: World, i: Input, crash: Crash, t: int)
    requires d.yearDay(i.t.load) == d.yearDay(t)
    ensures var file := Step(d, w, i, crash).file;
            Loaded(d, file, t).dailyCount == Loaded(d, w.file, t).dailyCount
            + (if StateOf(w.file) == FailingOver && StateOf(file) == FailedOver then 1 else 0)
  {
    hide Step;
    StepShape(d, w, i, crash);
  }

  lemma {:induction false} FreshLoad(d: Deployment, file: File, t: int)
    requires file.Valid? ==> file.snapshot.resetDay != d.yearDay(t)
    ensures Loaded(d, file, t).dailyCount == 0
  {
  }

  lemma {:induction false} SameDayLoad(d: Deployment, file: File, t1: int, t2: int)
    requires d.yearDay(t1) == d.yearDay(t2)
    ensures Loaded(d, file, t1).dailyCount == Loaded(d, file, t2).dailyCount
  {
  }

  /** From a day's first rollover on, the loaded count is exactly the failovers recorded that day. */
  lemma {:induction false} LoadedCountExact(d: Deployment, ws: seq<World>, es: seq<Event>, first: nat, n: nat)
    requires Calendar(d) && IsRun(d, ws, es) && first <= n < |es|
    requires d.dayOf(es[first].input.t.load) == d.dayOf(es[n].input.t.load)
    requires first > 0 ==> d.dayOf(es[first - 1].input.t.load) != d.dayOf(es[first].input.t.load)
    requires ws[first].file.Valid? ==> ws[first].file.snapshot.resetDay != d.yearDay(es[first].input.t.load)
    ensures Loaded(d, ws[n].file, es[n].input.t.load).dailyCount
            == RecordedOn(d, ws, es, n, d.dayOf(es[n].input.t.load))
    decreases n
  {
    hide Step, Loaded;
    if n == first {
      FreshDay(d, ws, es, n);
      FreshLoad(d, ws[n].file, es[n].input.t.load);
    } else {
      var before, t := es[n - 1], es[n].input.t.load;
      LoadsInOrder(d, ws, es, first, n - 1);
      LoadsInOrder(d, ws, es, n - 1, n);
      assert d.dayOf(before.input.t.load) == d.dayOf(t) && d.yearDay(before.input.t.load) == d.yearDay(t);
      LoadedCountExact(d, ws, es, first, n - 1);
      StepCount(d, ws[n - 1], before.input, before.crash, t);
      SameDayLoad(d, ws[n - 1].file, before.input.t.load, t);
    }
  }

  /** No day records more failovers than the limit, however often FAILING_OVER repeats its side effects. */
  lemma {:induction false} DailyLimit(d: Deployment, ws: seq<World>, es: seq<Event>, day: int)
    requires d.params.Sane() && d.params.maxDailyFailovers >= 0
    requires Calendar(d) && IsRun(d, ws, es) && SaneFile(d, ws[0].file)
    ensures RecordedOn(d, ws, es, |es|, day) <= d.params.maxDailyFailovers
  {
    hide Step;
    if k: nat :| k < |es| && d.dayOf(es[k].input.t.load) == day {
      var n := LastOfDay(d, ws, es, |es|, day);
      CountCoversRun(d, ws, es, n + 1, es[n].input.t.load);
      RecordedStops(d, ws, es, n + 1, |es|, day);
    } else {
      NothingRecordedAhead(d, ws, es, |es|, day);
    }
  }

  lemma {:induction false} LastOfDay(d: Deployment, ws: seq<World>, es: seq<Event>, n: nat, day: int) returns (k: nat)
    requires |ws| == |es| + 1 && n <= |es|
    requires exists j: nat :: j < n && d.dayOf(es[j].input.t.load) == day
    ensures k < n && d.dayOf(es[k].input.t.load) == day
    ensures forall j: nat :: k < j < n ==> d.dayOf(es[j].input.t.load) != day
  {
    if d.dayOf(es[n - 1].input.t.load) == day {
      k := n - 1;
    } else {
      k := LastOfDay(d, ws, es, n - 1, day);
    }
  }

  lemma {:induction false} RecordedStops(d: Deployment, ws: seq<World>, es: seq<Event>, m: nat, n: nat, day: int)
    requires |ws| == |es| + 1 && m <= n <= |es|
    requires forall j: nat :: m <= j < n ==> d.dayOf(es[j].input.t.load) != day
    ensures RecordedOn(d, ws, es, n, day) == RecordedOn(d, ws, es, m, day)
    decreases n
  {
    if n > m {
      RecordedStops(d, ws, es, m, n - 1, day);
    }
  }

  // Event k loads the state before midnight and records the failover after it.
  predicate Straddles(d: Deployment, ws: seq<World>, es: seq<Event>, k: nat)
    requires |ws| == |es| + 1 && k < |es|
  {
    Records(ws, k) && d.dayOf(es[k].input.t.load) != d.dayOf(es[k].input.t.act)
  }

  predicate StraddlesInto(d: Deployment, ws: seq<World>, es: seq<Event>, k: nat, day: int)
    requires |ws| == |es| + 1 && k < |es|
  {
    Straddles(d, ws, es, k) && d.dayOf(es[k].input.t.act) == day
  }

  predicate StraddlesOut(d: Deployment, ws: seq<World>, es: seq<Event>, k: nat, day: int)
    requires |ws| == |es| + 1 && k < |es|
  {
    Straddles(d, ws, es, k) && d.dayOf(es[k].input.t.load) == day
  }

  // The ticks that record a failover on the given day, having loaded the state on an earlier one.
  ghost function StraddledInto(d: Deployment, ws: seq<World>, es: seq<Event>, n: nat, day: int): nat
    requires |ws| == |es| + 1 && n <= |es|
  {
    if n == 0 then 0
    else StraddledInto(d, ws, es, n - 1, day)
         + (if StraddlesInto(d, ws, es, n - 1, day) then 1 else 0)
  }

  // Once a tick has loaded or recorded on the day, no later tick straddles into it.
  lemma {:induction false} OneStraddle(d: Deployment, ws: seq<World>, es: seq<Event>, n: nat, day: int)
    requires Calendar(d) && IsRun(d, ws, es) && n <= |es|
    ensures StraddledInto(d, ws, es, n, day) <= 1
    ensures StraddledInto(d, ws, es, n, day) == 1 ==> n > 0 && d.dayOf(es[n - 1].input.t.save) >= day
  {
    hide Step;
    if n > 0 {
      OneStraddle(d, ws, es, n - 1, day);
      var t := es[n - 1].input.t;
      assert d.dayOf(t.load) <= d.dayOf(t.act) <= d.dayOf(t.save);
      if n > 1 {
        assert es[n - 2].input.t.save <= t.load;
        assert d.dayOf(es[n - 2].input.t.save) <= d.dayOf(t.load);
      }
    }
  }

  // The ticks that load the state on the given day and record a failover on another one.
  ghost function StraddledOut(d: Deployment, ws: seq<World>, es: seq<Event>, n: nat, day: int): nat
    requires |ws| == |es| + 1 && n <= |es|
  {
    if n == 0 then 0
    else StraddledOut(d, ws, es, n - 1, day)
         + (if StraddlesOut(d, ws, es, n - 1, day) then 1 else 0)
  }

  lemma {:induction false} StraddlesCounted(d: Deployment, ws: seq<World>, es: seq<Event>, n: nat, day: int)
    requires |ws| == |es| + 1 && n <= |es|
    ensures StraddledInto(d, ws, es, n, day) > 0 <==> exists k: nat :: k < n && StraddlesInto(d, ws, es, k, day)
    ensures StraddledOut(d, ws, es, n, day) > 0 <==> exists k: nat :: k < n && StraddlesOut(d, ws, es, k, day)
  {
    hide StraddlesInto, StraddlesOut;
    if n > 0 {
      StraddlesCounted(d, ws, es, n - 1, day);
    }
  }

  /** What a day gains and loses at its midnights accounts for the whole difference of the two counts. */
  lemma {:induction false} StampedBalance(d: Deployment, ws: seq<World>, es: seq<Event>, n: nat, day: int)
    requires |ws| == |es| + 1 && n <= |es|
    ensures StampedOn(d, ws, es, n, day) + StraddledOut(d, ws, es, n, day)
            == RecordedOn(d, ws, es, n, day) + StraddledInto(d, ws, es, n, day)
  {
    if n > 0 {
      StampedBalance(d, ws, es, n - 1, day);
    }
  }

  /**
    Counted by the time of the failover itself, a day exceeds the limit exactly when a tick straddles into
    it, none straddles out of it, and the limit is used up on it; then by one. FailoverFindings shows such a run.
   */
  lemma {:induction false} DailyLimitByClock(d: Deployment, ws: seq<World>, es: seq<Event>, day: int)
    requires d.params.Sane() && d.params.maxDailyFailovers >= 0
    requires Calendar(d) && IsRun(d, ws, es) && SaneFile(d, ws[0].file)
    ensures StampedOn(d, ws, es, |es|, day) <= d.params.maxDailyFailovers + 1
    ensures StampedOn(d, ws, es, |es|, day) > d.params.maxDailyFailovers <==>
              && (exists k: nat :: k < |es| && StraddlesInto(d, ws, es, k, day))
              && (forall k: nat :: k < |es| ==> !StraddlesOut(d, ws, es, k, day))
              && RecordedOn(d, ws, es, |es|, day) == d.params.maxDailyFailovers
  {
    hide Step;
    DailyLimit(d, ws, es, day);
    OneStraddle(d, ws, es, |es|, day);
    StraddlesCounted(d, ws, es, |es|, day);
    StampedBalance(d, ws, es, |es|, day);
  }

  // ---------------------------------------------------------------- spacing of failovers

  // Every failover recorded before n happened no later than the file's LastFailoverTime.
  ghost predicate FailoversBelow(ws: seq<World>, es: seq<Event>, n: nat)
    requires |ws| == |es| + 1 && n <= |es|
  {
    forall k: nat :: k < n && Records(ws, k) ==>
                       && ws[n].file.Valid?
                       && ws[n].file.snapshot.lastFailover.At?
                       && ws[n].file.snapshot.lastFailover.t >= es[k].input.t.act
  }

  lemma {:induction false} LastFailoverIsLatest(d: Deployment, ws: seq<World>, es: seq<Event>, n: nat)
    requires IsRun(d, ws, es) && n <= |es|
    ensures FailoversBelow(ws, es, n)
  {
    hide Step;
    if n > 0 {
      LastFailoverIsLatest(d, ws, es, n - 1);
      StepShape(d, ws[n - 1], es[n - 1].input, es[n - 1].crash);
      if Records(ws, n - 1) {
        forall k: nat | k < n && Records(ws, k) ensures es[k].input.t.act <= es[n - 1].input.t.act {
          if k < n - 1 {
            assert es[k].input.t.save <= es[n - 1].input.t.load;
          }
        }
      }
    }
  }

  /** Whatever aborts, blocks or crashes come between, two recorded failovers keep the cooldown and a dwell apart. */
  lemma {:induction false} FailoverSpacing(d: Deployment, ws: seq<World>, es: seq<Event>, j: nat, k: nat)
    requires d.params.Sane() && IsRun(d, ws, es) && SaneFile(d, ws[0].file)
    requires j < k < |es| && Records(ws, j) && Records(ws, k)
    ensures es[k].input.t.stamp - es[j].input.t.act >= d.params.failoverCooldown + d.params.minTimeInState
  {
    hide Step;
    LastFailoverIsLatest(d, ws, es, k);
    RunKeepsSane(d, ws, es, k);
    var e := es[k];
    StepShape(d, ws[k], e.input, e.crash);
    SinceMeans(e.input.t.dwell, Loaded(d, ws[k].file, e.input.t.load).lastTransition, d.params.minTimeInState);
  }

  // ---------------------------------------------------------------- evidence for a failover

  // Event k looks at the scores in HEALTHY or DEGRADED, and sees the primary below the degrade threshold.
  predicate SeesBad(d: Deployment, ws: seq<World>, es: seq<Event>, k: nat)
    requires |ws| == |es| + 1 && k < |es|
  {
    && es[k].input.readable && !es[k].crash.DiesBeforeUpdate?
    && StateOf(ws[k].file) in {Healthy, Degraded}
    && var score := PrimaryScore(Loaded(d, ws[k].file, es[k].input.t.load), es[k].input.scores);
       score.Some? && score.value < DEGRADE_THRESHOLD
  }

  ghost function BadSince(d: Deployment, ws: seq<World>, es: seq<Event>, from: nat, n: nat): nat
    requires |ws| == |es| + 1 && from <= n <= |es|
  {
    if n == from then 0
    else BadSince(d, ws, es, from, n - 1) + (if SeesBad(d, ws, es, n - 1) then 1 else 0)
  }

  // The count of bad checks is backed by observations made since the healthy state.
  ghost predicate CountBacked(d: Deployment, ws: seq<World>, es: seq<Event>, from: nat, n: nat)
    requires |ws| == |es| + 1 && from <= n <= |es|
  {
    BadChecks(ws[n].file) <= BadSince(d, ws, es, from, n)
  }

  // The bad checks a file stands for: none while healthy.
  function BadChecks(file: File): int {
    if StateOf(file) in {Degraded, FailingOver, FailedOver, Recovering} then file.snapshot.degradedCount else 0
  }

  lemma {:induction false} StepCountsBadChecks(d: Deployment, w: World, i: Input, crash: Crash)
    ensures var score := PrimaryScore(Loaded(d, w.file, i.t.load), i.scores);
            var looks := i.readable && !crash.DiesBeforeUpdate? && StateOf(w.file) in {Healthy, Degraded};
            var bad := if looks && score.Some? && score.value < DEGRADE_THRESHOLD then 1 else 0;
            var checks := BadChecks(Step(d, w, i, crash).file);
            checks <= BadChecks(w.file) + bad || checks <= 0
  {
  }

  lemma {:induction false} CountBackedRun(d: Deployment, ws: seq<World>, es: seq<Event>, from: nat, n: nat)
    requires IsRun(d, ws, es) && from <= n <= |es|
    requires StateOf(ws[from].file) == Healthy
    ensures CountBacked(d, ws, es, from, n)
    decreases n
  {
    hide Step;
    if n > from {
      CountBackedRun(d, ws, es, from, n - 1);
      StepCountsBadChecks(d, ws[n - 1], es[n - 1].input, es[n - 1].crash);
    }
  }

  /**
    Every persisted entry into FAILING_OVER follows, since the state was last HEALTHY, at least the
    required number of bad observations, across restarts, aborts and lost saves.
   */
  lemma {:induction false} FailoverNeedsEvidence(d: Deployment, ws: seq<World>, es: seq<Event>, from: nat, k: nat)
    requires IsRun(d, ws, es) && from <= k < |es|
    requires StateOf(ws[from].file) == Healthy
    requires Moves(ws, k) && StateOf(ws[k + 1].file) == FailingOver
    ensures BadSince(d, ws, es, from, k + 1) >= CHECKS_REQUIRED
  {
    CountBackedRun(d, ws, es, from, k);
  }
}
