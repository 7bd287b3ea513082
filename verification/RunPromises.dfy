/** What every health run promises: its slots are conserved, it cannot deadlock, and what
    is recorded of a load follows from the attempts it spent. */
module RunPromises {
  import opened Common
  import opened HealthRun
  import opened RetryChain
  import opened RunSlots
  import P = PathTracker
  import Q = SlotQueue

  /** The tracker's promises hold in every run of loads: what the loads do to the path
      is one of the tracker's interleavings. */
  lemma PathPromises(r: Run)
    requires Reachable(r)
    ensures P.Reachable(r.path)
  {
    ReachableInv(r);
  }

  /** No more slots are held than there are, a load that is waiting out its spacing
      holds none, and all are free once every load is done. */
  lemma SlotsConserved(r: Run)
    requires Reachable(r)
    ensures Q.Busy(r.slots) <= r.o.Slots() == r.slots.capacity
    ensures forall i :: 0 <= i < |r.loads| && (r.loads[i].stage.Sleeping? || r.loads[i].stage.Done?) ==>
              Q.Idle(r.slots, i)
    ensures (forall i :: 0 <= i < |r.loads| ==> r.loads[i].stage.Done?) ==>
              Q.Busy(r.slots) == 0 && r.slots.waiting == []
  {
    ReachableInv(r);
    forall i | 0 <= i < |r.loads| && (r.loads[i].stage.Sleeping? || r.loads[i].stage.Done?) ensures Q.Idle(r.slots, i) {
      SlotlessIsIdle(r.slots, r.loads, i);
    }
    if forall i :: 0 <= i < |r.loads| ==> r.loads[i].stage.Done? {
      CountPositive(r.slots.grants, Q.Active);
      if k :| 0 <= k < |r.slots.grants| && Q.Active(r.slots.grants[k]) {
        assert GrantMatches(r.slots, r.loads, k);
      }
    }
  }

  /** The load whose step an action is. */
  function StepOf(a: Action): Option<nat> {
    match a
    case Tick(_) => None
    case EndRun => None
    case LoseTunnel(_) => None
    case Live(i, _) => Some(i)
    case BeginFetch(i) => Some(i)
    case NoLive(i, _, _) => Some(i)
    case FetchEnds(i, _, _) => Some(i)
    case Wake(i) => Some(i)
    case Arrive(i) => Some(i)
    case Quit(i) => Some(i)
    case Abandon(i, _) => Some(i)
  }

  ghost predicate SomeLoadCanStep(r: Run) {
    exists a :: Enabled(r, a) && StepOf(a).Some?
  }

  /** A load inside `live` can step, unless it is waiting for a re-open still running. */
  lemma HolderSteps(r: Run, i: nat)
    requires Inv(r) && i < |r.loads| && r.loads[i].stage.Holding?
    requires r.path.callers[i].Awaiting? ==>
               r.path.callers[i].call < |r.path.calls| && r.path.calls[r.path.callers[i].call].done
    ensures SomeLoadCanStep(r)
  {
    P.ReachableInv(r.path);
    assert P.PhaseOk(r.path, i);
    assert LoadMatches(r.slots, r.loads, i);
    match r.path.callers[i]
    case Returned(_, _) => assert Enabled(r, BeginFetch(i));
    case Refused(_) => assert Enabled(r, NoLive(i, "", 0.0));
    case Reopening(_) => assert Enabled(r, Live(i, P.ReopenFails));
    case _ => assert Enabled(r, Live(i, P.Proceed));
  }

  /** The load running a re-open others wait for can step. */
  lemma ReopenerSteps(r: Run, c: nat)
    requires Inv(r) && c < |r.path.calls| && !r.path.calls[c].done
    ensures SomeLoadCanStep(r)
  {
    P.ReachableInv(r.path);
    assert P.Attended(r.path, c);
    var j := r.path.calls[c].owner;
    assert CallerOk(r.path, r.loads[j], j);
    HolderSteps(r, j);
  }

  lemma SlotHolderSteps(r: Run, i: nat)
    requires Inv(r) && i < |r.loads| && SlotOf(r.loads[i].stage).Some?
    ensures SomeLoadCanStep(r)
  {
    assert LoadMatches(r.slots, r.loads, i);
    if r.loads[i].stage.Fetching? {
      assert Enabled(r, FetchEnds(i, Pass, 0.0));
    } else if r.path.callers[i].Awaiting? {
      P.ReachableInv(r.path);
      assert P.PhaseOk(r.path, i);
      if r.path.calls[r.path.callers[i].call].done {
        HolderSteps(r, i);
      } else {
        ReopenerSteps(r, r.path.callers[i].call);
      }
    } else {
      HolderSteps(r, i);
    }
  }

  lemma SomeLoadSteps(r: Run, i: nat)
    requires Inv(r) && i < |r.loads|
    requires !r.loads[i].stage.Done? && !r.loads[i].stage.Sleeping?
    ensures SomeLoadCanStep(r)
  {
    if r.loads[i].stage.Ready? {
      assert Enabled(r, if r.path.ended then Quit(i) else Arrive(i));
    } else if r.loads[i].stage.Queued? {
      assert LoadMatches(r.slots, r.loads, i);
      CountPositive(r.slots.grants, Q.Active);
      var k :| 0 <= k < |r.slots.grants| && Q.Active(r.slots.grants[k]);
      assert GrantMatches(r.slots, r.loads, k);
      SlotHolderSteps(r, r.slots.grants[k].load);
    } else {
      SlotHolderSteps(r, i);
    }
  }

  /** No run can deadlock: while some load is neither done nor waiting out its spacing,
      some load can step, although loads that wait for a re-open hold slots and so does
      the one running it. */
  lemma NoDeadlock(r: Run, i: nat)
    requires Reachable(r) && i < |r.loads|
    requires !r.loads[i].stage.Done? && !r.loads[i].stage.Sleeping?
    ensures SomeLoadCanStep(r)
  {
    ReachableInv(r);
    SomeLoadSteps(r, i);
  }

  /** What a load that is done is recorded as follows from the attempts it spent. */
  lemma DoneIsAVerdict(r: Run, i: nat, name: string, class_: string, cause: string)
    requires Reachable(r) && i < |r.loads| && r.loads[i].stage.Done?
    ensures var h, v := r.loads[i].history, Verdict(name, class_, r.loads[i].history, cause);
            && IsChain(h, r.o.Attempts())
            && (v.ok <==> exists k :: 0 <= k < |h| && h[k].Passed?)
            && (v.notMeasured <==> h != [] && Tunnelless(h[|h| - 1]) && forall k :: 0 <= k < |h| ==> !h[k].Passed?)
  {
    ReachableInv(r);
    assert HistoryOk(r.o, r.loads[i]);
    VerdictMeaning(name, class_, r.loads[i].history, cause, r.o.Attempts());
  }
}
