/** What a health run records of an attempt: what its fetch came to and whether its tunnel was
    lost by then, or that it had no tunnel, a re-open that failed being shared by every load
    that waited for it. */
module RunRecords {
  import opened Common
  import opened HealthRun
  import opened RetryChain
  import opened RunSlots
  import P = PathTracker

  /** A fetch that ends spends one attempt, recorded for what it came to; a failed one as
      under a lost tunnel exactly if the tunnel it went through is lost as it ends. */
  lemma FetchIsRecorded(r: Run, i: nat, fetch: Fetch, draw: real)
    requires Inv(r) && Enabled(r, FetchEnds(i, fetch, draw))
    ensures var h, h' := r.loads[i].history, Apply(r, FetchEnds(i, fetch, draw)).loads[i].history;
            && |h'| == |h| + 1 && h'[..|h|] == h
            && (h'[|h|].Passed? <==> fetch.Pass?)
            && (h'[|h|].TlsRejected? <==> fetch.Tls?)
            && (h'[|h|].Failed? <==> fetch.Fail?)
            && (h'[|h|].Failed? ==> (h'[|h|].tunnelLost <==> r.loads[i].stage.gen in r.path.path.lost))
            && (!fetch.Pass? ==> Error(h'[|h|]) == fetch.err)
  {
    assert HistoryOk(r.o, r.loads[i]);
  }

  /** A load that gets no client spends its attempt as one without a tunnel, unless the run is
      over: then it spends none, and is done. */
  lemma NoClientIsRecorded(r: Run, i: nat, err: string, draw: real)
    requires Inv(r) && Enabled(r, NoLive(i, err, draw))
    ensures var load, load' := r.loads[i], Apply(r, NoLive(i, err, draw)).loads[i];
            if r.path.ended then load'.history == load.history && load'.stage == Done(r.now)
            else load'.history == load.history + [NoTunnel(err)]
  {
    assert HistoryOk(r.o, r.loads[i]);
  }

  /** What a load does once it has spent an attempt and the run is not over: it is done exactly
      if the attempt passed or failed TLS, it was the last, or the next is given up; otherwise it
      waits for as long as was fitted; and `clamped` is set exactly if that is not as long as was
      drawn. */
  lemma NextIsRecorded(r: Run, a: Action)
    requires Inv(r) && Enabled(r, a) && (a.FetchEnds? || (a.NoLive? && !r.path.ended))
    ensures var load, load' := r.loads[a.i], Apply(r, a).loads[a.i];
            var n, last := |load'.history|, load'.history[|load'.history| - 1];
            && n == |load.history| + 1
            && (last.Passed? || last.TlsRejected? || r.o.Attempts() <= n ==>
                  load'.stage == Done(r.now) && load'.clamped == load.clamped)
            && (!last.Passed? && !last.TlsRejected? && n < r.o.Attempts() ==>
                  var fit, drawn := Fitted(r.o, r.deadline, r.now, n + 1, a.draw), RetryDelay(a.draw, r.o.Mean());
                  && (fit.GiveUp? ==> load'.stage == Done(r.now) && load'.clamped)
                  && (fit.Wait? ==> load'.stage == Sleeping(r.now + fit.delay))
                  && (fit.Wait? ==> (load'.clamped <==> load.clamped || fit.delay != drawn)))
  {
    assert HistoryOk(r.o, r.loads[a.i]);
  }

  /** A load fetches through the client that the tracker returned it, and holds its slot until
      the fetch ends. */
  lemma FetchUsesClient(r: Run, i: nat)
    requires Inv(r) && Enabled(r, BeginFetch(i))
    ensures var load' := Apply(r, BeginFetch(i)).loads[i];
            && load'.stage == Fetching(r.loads[i].stage.slot, r.path.callers[i].gen)
            && load'.history == r.loads[i].history && Apply(r, BeginFetch(i)).slots == r.slots
            && Apply(r, BeginFetch(i)).path.callers[i] == P.Outside
  {
  }

  // ----- Waiting, and the end of the run -----

  /** A load that waits out its spacing goes on waiting until the wait it was fitted is over, or
      the run is. */
  lemma {:induction false} SleepsItsWait(r: Run, i: nat, actions: seq<Action>, r': Run)
    requires Inv(r) && Runs(r, actions, r') && i < |r.loads| && r.loads[i].stage.Sleeping?
    requires r'.now < r.loads[i].stage.wake && !r'.path.ended
    ensures i < |r'.loads| && r'.loads[i] == r.loads[i]
    decreases |actions|
  {
    if actions != [] {
      TimeGoesOn(r, actions, r');
      if r.path.ended {
        EndIsForGood(r, actions, r');
      }
      AsleepStays(r, actions[0], i);
      StepKeepsInv(r, actions[0]);
      SleepsItsWait(Apply(r, actions[0]), i, actions[1..], r');
    }
  }

  lemma AsleepStays(r: Run, a: Action, i: nat)
    requires Inv(r) && Enabled(r, a) && i < |r.loads| && r.loads[i].stage.Sleeping?
    requires r.now < r.loads[i].stage.wake && !r.path.ended
    ensures i < |Apply(r, a).loads| && Apply(r, a).loads[i] == r.loads[i]
  {
    if r.slots.waiting != [] {
      assert WaiterMatches(r.slots, r.loads, 0);
    }
  }

  lemma {:induction false} TimeGoesOn(r: Run, actions: seq<Action>, r': Run)
    requires Runs(r, actions, r')
    ensures r.now <= r'.now
    decreases |actions|
  {
    if actions != [] {
      TimeGoesOn(Apply(r, actions[0]), actions[1..], r');
    }
  }

  lemma {:induction false} EndIsForGood(r: Run, actions: seq<Action>, r': Run)
    requires Runs(r, actions, r') && r.path.ended
    ensures r'.path.ended
    decreases |actions|
  {
    if actions != [] {
      EndIsForGood(Apply(r, actions[0]), actions[1..], r');
    }
  }

  /** Load `i` has spent just the attempts `h`, and neither has a slot nor asks for one. */
  ghost predicate StartsNoMore(r: Run, i: nat, h: seq<Attempt>) {
    && r.path.ended && i < |r.loads| && r.loads[i].history == h
    && (r.loads[i].stage.Ready? || r.loads[i].stage.Sleeping? || r.loads[i].stage.Done?)
  }

  /** Once the run has ended, a load that waits out its spacing, or is about to ask for a slot,
      starts no attempt, though slots be free. */
  lemma {:induction false} EndedRunStartsNothing(r: Run, i: nat, h: seq<Attempt>, actions: seq<Action>, r': Run)
    requires Inv(r) && Runs(r, actions, r') && StartsNoMore(r, i, h)
    ensures StartsNoMore(r', i, h)
    decreases |actions|
  {
    if actions != [] {
      StepKeepsInv(r, actions[0]);
      StepStartsNothing(r, actions[0], i, h);
      EndedRunStartsNothing(Apply(r, actions[0]), i, h, actions[1..], r');
    }
  }

  /** Another load that gives its slot back hands it to one that queues. */
  lemma SpendStartsNothing(r: Run, a: Action, i: nat, h: seq<Attempt>)
    requires Inv(r) && Enabled(r, a) && StartsNoMore(r, i, h) && (a.NoLive? || a.FetchEnds?)
    ensures StartsNoMore(Apply(r, a), i, h)
  {
    if r.slots.waiting != [] {
      assert WaiterMatches(r.slots, r.loads, 0);
    }
  }

  lemma StepStartsNothing(r: Run, a: Action, i: nat, h: seq<Attempt>)
    requires Inv(r) && Enabled(r, a) && StartsNoMore(r, i, h)
    ensures StartsNoMore(Apply(r, a), i, h)
  {
    if a.NoLive? || a.FetchEnds? {
      SpendStartsNothing(r, a, i, h);
    }
  }

  /** And then a load that waits, for its spacing or for a slot, can stop there and then. */
  lemma EndedRunQuits(r: Run, i: nat)
    requires Inv(r) && r.path.ended && i < |r.loads|
    requires r.loads[i].stage.Ready? || r.loads[i].stage.Sleeping? || r.loads[i].stage.Queued?
    ensures exists a ::
              && Enabled(r, a) && Apply(r, a).loads == r.loads[i := r.loads[i].(stage := Done(r.now))]
  {
    if r.loads[i].stage.Queued? {
      assert LoadMatches(r.slots, r.loads, i);
      var p :| 0 <= p < |r.slots.waiting| && r.slots.waiting[p].load == i;
      assert Enabled(r, Abandon(i, p));
    } else {
      assert Enabled(r, Quit(i));
    }
  }

  // ----- A re-open that fails -----

  /** Load `i` ran, or waits for, a re-open that has failed, or has been told so. */
  ghost predicate Shares(r: Run, i: nat) {
    && i < |r.loads| && i < |r.path.callers| && r.loads[i].stage.Holding?
    && match r.path.callers[i]
       case Finishing(c) => HasFailed(r.path, c)
       case Closing(c) => HasFailed(r.path, c)
       case Awaiting(c) => HasFailed(r.path, c)
       case Outcome(c) => HasFailed(r.path, c)
       case Refused(_) => true
       case _ => false
  }

  ghost predicate HasFailed(path: P.System, c: nat) {
    c < |path.calls| && path.calls[c].outcome == P.Failed
  }

  /** The attempt after `h` is recorded as one without a tunnel, or is not made. */
  ghost predicate WithoutTunnel(r: Run, i: nat, h: seq<Attempt>) {
    && i < |r.loads|
    && var h' := r.loads[i].history;
       if h' == h then r.loads[i].stage.Done? || Shares(r, i)
       else |h| < |h'| && h'[..|h|] == h && h'[|h|].NoTunnel?
  }

  /** What a re-open came to once its caller is past it stands. */
  lemma FailureStands(path: P.System, a: P.Action, c: nat)
    requires P.Reachable(path) && P.Enabled(path, a) && HasFailed(path, c)
    ensures HasFailed(P.Apply(path, a), c)
  {
    P.ReachableInv(path);
    if a.Caller? {
      assert P.PhaseOk(path, a.i);
    }
  }

  /** The path's step that a step of the run is, if it is one. */
  function PathAction(a: Action): Option<P.Action> {
    match a
    case EndRun => Some(P.EndRun)
    case LoseTunnel(g) => Some(P.LoseTunnel(g))
    case Live(i, m) => Some(P.Caller(i, m))
    case BeginFetch(i) => Some(P.Caller(i, P.Proceed))
    case NoLive(i, _, _) => Some(P.Caller(i, P.Proceed))
    case _ => None
  }

  lemma PathMoves(r: Run, a: Action)
    requires Inv(r) && Enabled(r, a)
    ensures PathAction(a).None? ==> Apply(r, a).path == r.path
    ensures PathAction(a).Some? ==> P.Enabled(r.path, PathAction(a).value)
    ensures PathAction(a).Some? ==> Apply(r, a).path == P.Apply(r.path, PathAction(a).value)
  {
  }

  /** Steps of other loads, and of the environment, keep a load that shares a failure so. */
  lemma OtherStepShares(r: Run, a: Action, i: nat)
    requires Inv(r) && Enabled(r, a) && Shares(r, i)
    requires a.Tick? || a.EndRun? || a.LoseTunnel? || a.i != i
    ensures Shares(Apply(r, a), i) && Apply(r, a).loads[i].history == r.loads[i].history
  {
    PathMoves(r, a);
    if PathAction(a).Some? {
      PathStep(r.path, PathAction(a).value);
      if !r.path.callers[i].Refused? {
        FailureStands(r.path, PathAction(a).value, r.path.callers[i].call);
      }
    }
    if r.slots.waiting != [] {
      assert WaiterMatches(r.slots, r.loads, 0);
    }
  }

  lemma OwnStepWithoutTunnel(r: Run, a: Action, i: nat)
    requires Inv(r) && Enabled(r, a) && Shares(r, i)
    requires !a.Tick? && !a.EndRun? && !a.LoseTunnel? && a.i == i
    ensures WithoutTunnel(Apply(r, a), i, r.loads[i].history)
  {
    PathMoves(r, a);
    if a.NoLive? {
      NoClientIsRecorded(r, i, a.err, a.draw);
    } else if a.Live? && !r.path.callers[i].Refused? {
      FailureStands(r.path, P.Caller(i, a.move), r.path.callers[i].call);
    }
  }

  /** A load's record only grows, and a load that is done stays as it is. */
  lemma RecordGrows(r: Run, a: Action, i: nat)
    requires Inv(r) && Enabled(r, a) && i < |r.loads|
    ensures i < |Apply(r, a).loads| && r.loads[i].history <= Apply(r, a).loads[i].history
    ensures r.loads[i].stage.Done? ==> Apply(r, a).loads[i] == r.loads[i]
  {
    if r.slots.waiting != [] {
      assert WaiterMatches(r.slots, r.loads, 0);
    }
  }

  lemma StepWithoutTunnel(r: Run, a: Action, i: nat, h: seq<Attempt>)
    requires Inv(r) && Enabled(r, a) && WithoutTunnel(r, i, h)
    ensures WithoutTunnel(Apply(r, a), i, h)
  {
    RecordGrows(r, a, i);
    if r.loads[i].history == h && !r.loads[i].stage.Done? {
      if a.Tick? || a.EndRun? || a.LoseTunnel? || a.i != i {
        OtherStepShares(r, a, i);
      } else {
        OwnStepWithoutTunnel(r, a, i);
      }
    }
  }

  /** A load that ran or waited for a re-open that failed fetches nothing on that attempt:
      however the run goes on, the attempt is recorded as one without a tunnel, or the run is
      over before it is made. */
  lemma {:induction false} FailedReopenIsNoTunnel(r: Run, i: nat, h: seq<Attempt>, actions: seq<Action>, r': Run)
    requires Inv(r) && Runs(r, actions, r') && WithoutTunnel(r, i, h)
    ensures WithoutTunnel(r', i, h)
    decreases |actions|
  {
    if actions != [] {
      StepKeepsInv(r, actions[0]);
      StepWithoutTunnel(r, actions[0], i, h);
      FailedReopenIsNoTunnel(Apply(r, actions[0]), i, h, actions[1..], r');
    }
  }
}
