/** The default budget is enough: in a run that holds no slot beyond one timeout, every
    load keeps to its schedule. */
module RunBudget {
  import opened Common
  import opened HealthRun
  import opened RetryChain
  import opened RunSchedule
  import opened RunSlots
  import Q = SlotQueue

  /** Nothing takes longer than it should: no slot is held for more than one timeout, a
      wait ends when it is over, a load takes no time to ask for a slot, and the run's
      context outlives its deadline. */
  ghost predicate Timely(r: Run, a: Action) {
    match a
    case Tick(d) =>
      && Q.HeldAtMost(r.slots.grants, r.now + d, r.o.Timeout())
      && (forall i :: 0 <= i < |r.loads| ==> !r.loads[i].stage.Ready?)
      && (forall i :: 0 <= i < |r.loads| && r.loads[i].stage.Sleeping? ==> r.now + d <= r.loads[i].stage.wake)
    case EndRun => r.deadline < r.now
    case _ => true
  }

  ghost predicate TimelyRuns(r: Run, actions: seq<Action>, r': Run)
    decreases |actions|
  {
    if actions == [] then r' == r
    else Enabled(r, actions[0]) && Timely(r, actions[0]) && TimelyRuns(Apply(r, actions[0]), actions[1..], r')
  }

  // ----- The schedule every load keeps -----
  /** A load is no later than its schedule, has had every wait it drew, and is done
      only once its attempts have settled it. */
  ghost predicate Punctual(r: Run, i: nat, begun: int)
    requires i < |r.loads|
  {
    var n, load := |r.loads|, r.loads[i];
    var due := Due(r.o, n, begun, |load.history|);
    && !load.clamped
    && match load.stage
       case Ready => r.now <= due
       case Sleeping(wake) => r.now <= wake <= due
       case Queued => forall p :: 0 <= p < |r.slots.waiting| && r.slots.waiting[p].load == i ==>
         r.slots.waiting[p].arrival <= due
       case Holding(k) => k < |r.slots.grants| && r.slots.grants[k].arrival <= due
       case Fetching(k, _) => k < |r.slots.grants| && r.slots.grants[k].arrival <= due
       case Done(at) => at <= Finish(r.o, n, begun) && Settled(r.o, load.history)
  }

  ghost predicate OnSchedule(r: Run, begun: int) {
    && Inv(r)
    && 0 < |r.loads| && Finish(r.o, |r.loads|, begun) <= r.deadline
    && 0 <= SlotWait(r.o, |r.loads|)
    && Q.Timing(r.slots, r.now, r.o.Timeout(), SlotWait(r.o, |r.loads|), |r.loads|)
    && (forall i :: 0 <= i < |r.loads| ==> Punctual(r, i, begun))
    && (r.path.ended ==> r.deadline < r.now)
  }

  /** A request that has its slot is served within one round of waiting and one timeout. */
  lemma ServedInTime(r: Run, begun: int, i: nat)
    requires OnSchedule(r, begun) && i < |r.loads| && SlotOf(r.loads[i].stage).Some?
    ensures r.now <= Due(r.o, |r.loads|, begun, |r.loads[i].history|) + Served(r.o, |r.loads|)
  {
    assert LoadMatches(r.slots, r.loads, i) && Punctual(r, i, begun);
    var k := SlotOf(r.loads[i].stage).value;
    assert Q.Active(r.slots.grants[k]);
  }

  lemma QueuedInTime(r: Run, begun: int, i: nat)
    requires OnSchedule(r, begun) && i < |r.loads| && r.loads[i].stage.Queued?
    ensures r.now <= Due(r.o, |r.loads|, begun, |r.loads[i].history|) + Served(r.o, |r.loads|)
  {
    SlotWaitNatural(r.o, |r.loads|);
    assert LoadMatches(r.slots, r.loads, i) && Punctual(r, i, begun);
    var p :| 0 <= p < |r.slots.waiting| && r.slots.waiting[p].load == i;
    Q.WaitBound(r.slots, r.now, r.o.Timeout(), SlotWait(r.o, |r.loads|), |r.loads|, p);
  }

  /** While a load is not done, the deadline has not passed. */
  lemma UnfinishedInTime(r: Run, begun: int, i: nat)
    requires OnSchedule(r, begun) && i < |r.loads| && !r.loads[i].stage.Done?
    ensures r.now <= r.deadline && !r.path.ended
  {
    assert HistoryOk(r.o, r.loads[i]) && Punctual(r, i, begun);
    DueInOrder(r.o, |r.loads|, begun, |r.loads[i].history|);
    if SlotOf(r.loads[i].stage).Some? {
      ServedInTime(r, begun, i);
    } else if r.loads[i].stage.Queued? {
      QueuedInTime(r, begun, i);
    }
  }

  /** The load's schedule once it has spent one more attempt. */
  lemma NextOnSchedule(r: Run, begun: int, i: nat, a: Attempt, draw: real)
    requires OnSchedule(r, begun) && i < |r.loads| && SlotOf(r.loads[i].stage).Some?
    ensures var load, h := r.loads[i], r.loads[i].history + [a];
            var next := Next(r, load, h, draw);
            && next.history == h && !next.clamped
            && match next.stage
               case Sleeping(wake) => r.now <= wake <= Due(r.o, |r.loads|, begun, |h|)
               case Done(at) => at <= Finish(r.o, |r.loads|, begun) && Settled(r.o, h)
               case _ => false
  {
    var load, spent := r.loads[i], |r.loads[i].history|;
    assert HistoryOk(r.o, load) && Punctual(r, i, begun);
    ServedInTime(r, begun, i);
    DueInOrder(r.o, |r.loads|, begun, spent);
    if spent + 1 < r.o.Attempts() {
      WaitAsDrawn(r.o, r.deadline, |r.loads|, begun, r.now, spent, draw);
      RetryDelayRange(draw, r.o.Mean());
    }
  }

  // ----- Every timely step keeps the schedule -----

  /** The slots change without a request changing when it was made. */
  ghost predicate ArrivalsKept(q: Q.Slots, q': Q.Slots, load: nat) {
    && |q.grants| <= |q'.grants|
    && (forall k :: 0 <= k < |q.grants| ==> q'.grants[k].arrival == q.grants[k].arrival)
    && (forall p :: 0 <= p < |q'.waiting| && q'.waiting[p].load == load ==>
          exists n :: 0 <= n < |q.waiting| && q.waiting[n] == q'.waiting[p])
  }

  lemma PunctualKept(r: Run, r': Run, begun: int, j: nat)
    requires j < |r.loads| == |r'.loads| && r'.loads[j] == r.loads[j]
    requires r'.o == r.o && r'.now == r.now && ArrivalsKept(r.slots, r'.slots, j)
    requires Punctual(r, j, begun)
    ensures Punctual(r', j, begun)
  {
  }

  lemma TickOnSchedule(r: Run, begun: int, a: Action)
    requires OnSchedule(r, begun) && Enabled(r, a) && Timely(r, a) && a.Tick?
    ensures OnSchedule(Apply(r, a), begun)
  {
    var r' := Apply(r, a);
    ClockKeepsInv(r, a);
    Q.TickTiming(r.slots, r.now, r'.now, r.o.Timeout(), SlotWait(r.o, |r.loads|), |r.loads|);
    forall i | 0 <= i < |r.loads| ensures Punctual(r', i, begun) {
      assert Punctual(r, i, begun);
    }
  }

  /** A step that concerns neither the slots, the clock nor load `j`. */
  lemma PunctualStill(r: Run, r': Run, begun: int, j: nat)
    requires j < |r.loads| == |r'.loads| && r'.loads[j] == r.loads[j] && r'.slots == r.slots
    requires r'.o == r.o && r'.now == r.now && Punctual(r, j, begun)
    ensures Punctual(r', j, begun)
  {
  }

  lemma StillOnSchedule(r: Run, r': Run, begun: int)
    requires OnSchedule(r, begun) && Inv(r') && |r'.loads| == |r.loads| && r'.slots == r.slots
    requires r'.o == r.o && r'.now == r.now && r'.deadline == r.deadline
    requires r'.path.ended ==> r.deadline < r.now
    requires forall j :: 0 <= j < |r.loads| ==> r'.loads[j] == r.loads[j] || Punctual(r', j, begun)
    ensures OnSchedule(r', begun)
  {
    forall j | 0 <= j < |r.loads| ensures Punctual(r', j, begun) {
      assert Punctual(r, j, begun);
      if r'.loads[j] == r.loads[j] {
        PunctualStill(r, r', begun, j);
      }
    }
  }

  /** Steps that only the path takes part in. */
  lemma PathStepOnSchedule(r: Run, begun: int, a: Action)
    requires OnSchedule(r, begun) && Enabled(r, a) && Timely(r, a)
    requires a.EndRun? || a.LoseTunnel? || a.Live?
    ensures OnSchedule(Apply(r, a), begun)
  {
    StepKeepsInv(r, a);
    StillOnSchedule(r, Apply(r, a), begun);
  }

  /** Steps that change a load's stage and leave the slots alone. */
  lemma SlotlessStepOnSchedule(r: Run, begun: int, a: Action)
    requires OnSchedule(r, begun) && Enabled(r, a) && Timely(r, a)
    requires a.Wake? || a.Quit? || a.BeginFetch?
    ensures OnSchedule(Apply(r, a), begun)
  {
    var r' := Apply(r, a);
    StepKeepsInv(r, a);
    if a.Quit? {
      UnfinishedInTime(r, begun, a.i);
    }
    assert Punctual(r, a.i, begun);
    assert Punctual(r', a.i, begun);
    StillOnSchedule(r, r', begun);
  }

  lemma ArriveOnSchedule(r: Run, begun: int, i: nat)
    requires OnSchedule(r, begun) && Enabled(r, Arrive(i))
    ensures OnSchedule(Apply(r, Arrive(i)), begun)
  {
    var r' := Apply(r, Arrive(i));
    StepKeepsInv(r, Arrive(i));
    SlotlessIsIdle(r.slots, r.loads, i);
    Q.ArriveTiming(r.slots, i, r.now, r.o.Timeout(), SlotWait(r.o, |r.loads|), |r.loads|);
    forall j | 0 <= j < |r.loads| ensures Punctual(r', j, begun) {
      assert Punctual(r, j, begun);
      if j != i {
        assert forall p :: 0 <= p < |r'.slots.waiting| && r'.slots.waiting[p].load == j ==> p < |r.slots.waiting|;
        PunctualKept(r, r', begun, j);
      }
    }
  }

  /** The load that takes a slot over asked for it in time. */
  lemma TakeoverPunctual(r: Run, r': Run, begun: int)
    requires OnSchedule(r, begun) && r.slots.waiting != []
    requires r'.o == r.o && r'.now == r.now && |r'.loads| == |r.loads|
    requires r'.loads[r.slots.waiting[0].load] == r.loads[r.slots.waiting[0].load].(stage := Holding(|r.slots.grants|))
    requires |r.slots.grants| < |r'.slots.grants|
    requires r'.slots.grants[|r.slots.grants|].arrival == r.slots.waiting[0].arrival
    ensures Punctual(r', r.slots.waiting[0].load, begun)
  {
    assert WaiterMatches(r.slots, r.loads, 0);
    assert Punctual(r, r.slots.waiting[0].load, begun);
  }

  lemma ReleaseKeepsArrivals(q: Q.Slots, slot: nat, now: int, load: nat)
    requires slot < |q.grants|
    ensures ArrivalsKept(q, Q.Release(q, slot, now), load)
  {
    var q' := Q.Release(q, slot, now);
    forall p | 0 <= p < |q'.waiting| ensures exists n :: 0 <= n < |q.waiting| && q.waiting[n] == q'.waiting[p] {
      assert q.waiting[p + 1] == q'.waiting[p];
    }
  }

  lemma SpendOnSchedule(r: Run, begun: int, a: Action)
    requires OnSchedule(r, begun) && Enabled(r, a) && (a.NoLive? || a.FetchEnds?)
    ensures OnSchedule(Apply(r, a), begun)
  {
    var i, slot, r' := a.i, r.loads[a.i].stage.slot, Apply(r, a);
    StepKeepsInv(r, a);
    UnfinishedInTime(r, begun, i);
    assert LoadMatches(r.slots, r.loads, i);
    SlotWaitNatural(r.o, |r.loads|);
    Q.ReleaseTiming(r.slots, slot, r.now, r.o.Timeout(), SlotWait(r.o, |r.loads|), |r.loads|);
    var made := if a.NoLive? then NoTunnel(a.err) else Made(Client(a.fetch, r.loads[i].stage.gen in r.path.path.lost));
    NextOnSchedule(r, begun, i, made, a.draw);
    SpendersPunctual(r, r', begun, i, slot, Next(r, r.loads[i], r.loads[i].history + [made], a.draw));
  }

  lemma SpendersPunctual(r: Run, r': Run, begun: int, i: nat, slot: nat, next: LoadState)
    requires OnSchedule(r, begun) && i < |r.loads| && SlotOf(r.loads[i].stage) == Some(slot) && slot < |r.slots.grants|
    requires r'.o == r.o && r'.now == r.now && r'.slots == Q.Release(r.slots, slot, r.now)
    requires r'.loads == HandedOver(r.slots, r.loads, i, next)
    requires !next.clamped
    requires match next.stage
             case Sleeping(wake) => r.now <= wake <= Due(r.o, |r.loads|, begun, |next.history|)
             case Done(at) => at <= Finish(r.o, |r.loads|, begun) && Settled(r.o, next.history)
             case _ => false
    ensures forall j :: 0 <= j < |r'.loads| ==> Punctual(r', j, begun)
  {
    forall j | 0 <= j < |r'.loads| ensures Punctual(r', j, begun) {
      if j != i {
        assert Punctual(r, j, begun);
        ReleaseKeepsArrivals(r.slots, slot, r.now, j);
        if r.slots.waiting != [] && r.slots.waiting[0].load == j {
          TakeoverPunctual(r, r', begun);
        } else {
          PunctualKept(r, r', begun, j);
        }
      }
    }
  }

  lemma StepOnSchedule(r: Run, begun: int, a: Action)
    requires OnSchedule(r, begun) && Enabled(r, a) && Timely(r, a)
    ensures OnSchedule(Apply(r, a), begun)
  {
    match a
    case Tick(_) => TickOnSchedule(r, begun, a);
    case Arrive(i) => ArriveOnSchedule(r, begun, i);
    case Abandon(i, _) => UnfinishedInTime(r, begun, i);
    case NoLive(_, _, _) => SpendOnSchedule(r, begun, a);
    case FetchEnds(_, _, _) => SpendOnSchedule(r, begun, a);
    case EndRun => PathStepOnSchedule(r, begun, a);
    case LoseTunnel(_) => PathStepOnSchedule(r, begun, a);
    case Live(_, _) => PathStepOnSchedule(r, begun, a);
    case _ => SlotlessStepOnSchedule(r, begun, a);
  }

  lemma SettingsKept(r: Run, a: Action)
    requires Enabled(r, a)
    ensures Apply(r, a).o == r.o && Apply(r, a).deadline == r.deadline && |Apply(r, a).loads| == |r.loads|
  {
  }

  lemma {:induction false} TimelyRunOnSchedule(r: Run, begun: int, actions: seq<Action>, r': Run)
    requires OnSchedule(r, begun) && TimelyRuns(r, actions, r')
    ensures OnSchedule(r', begun) && r'.o == r.o && r'.deadline == r.deadline && |r'.loads| == |r.loads|
    decreases |actions|
  {
    if actions != [] {
      StepOnSchedule(r, begun, actions[0]);
      SettingsKept(r, actions[0]);
      TimelyRunOnSchedule(Apply(r, actions[0]), begun, actions[1..], r');
    }
  }

  lemma InitialOnSchedule(r: Run)
    requires Initial(r) && 0 < |r.loads| && !r.path.ended
    requires r.now + r.o.RunBudget(|r.loads|) - r.o.WarmUp() <= r.deadline
    ensures OnSchedule(r, r.now)
  {
    InitialInv(r);
    BudgetIsFinish(r.o, |r.loads|, r.now);
    SlotWaitNatural(r.o, |r.loads|);
  }

  /** The default budget, or any set that is no shorter, is enough, for any number of
      loads, slots and attempts, with slots granted first come, first served.  Its deadline
      was set a warm-up before the loads started, at most.  If no slot is held for longer than one timeout, every load
      is done by the deadline; no wait it drew was shortened; and no attempt was lost: it
      is done only once an attempt passed or failed TLS, or every attempt was spent. */
  lemma DefaultBudgetSuffices(r0: Run, actions: seq<Action>, r: Run)
    requires Initial(r0) && 0 < |r0.loads| && !r0.path.ended
    requires 0 < r0.o.budget ==> r0.o.RunBudget(|r0.loads|) <= r0.o.budget
    requires r0.now + r0.o.Budget(|r0.loads|) - r0.o.WarmUp() <= r0.deadline
    requires TimelyRuns(r0, actions, r)
    ensures |r.loads| == |r0.loads|
    ensures forall i :: 0 <= i < |r.loads| ==> !r.loads[i].clamped
    ensures forall i :: 0 <= i < |r.loads| && r.loads[i].stage.Done? ==>
              r.loads[i].stage.at <= r0.deadline && Settled(r0.o, r.loads[i].history)
    ensures r0.deadline < r.now ==> forall i :: 0 <= i < |r.loads| ==> r.loads[i].stage.Done?
  {
    InitialOnSchedule(r0);
    TimelyRunOnSchedule(r0, r0.now, actions, r);
    forall i | 0 <= i < |r.loads|
      ensures !r.loads[i].clamped
      ensures r.loads[i].stage.Done? ==> r.loads[i].stage.at <= r0.deadline && Settled(r0.o, r.loads[i].history)
      ensures r0.deadline < r.now ==> r.loads[i].stage.Done?
    {
      assert Punctual(r, i, r0.now);
      if !r.loads[i].stage.Done? {
        UnfinishedInTime(r, r0.now, i);
      }
    }
  }
}
