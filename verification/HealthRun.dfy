/** A whole health run: any number of loads, each working through its retry chain,
    sharing the concurrency slots, one deadline and one replaceable tunnel.

    The run is a step system.  Asking for a slot, every step of asking the path for a
    client, every fetch and every wait is a step of its own, and the clock, the end of
    the run's context and the loss of a tunnel are steps of the environment.  What a
    load does between two of them is its own business and takes no step: giving its
    slot back, recording the attempt and fitting its next wait. */
module HealthRun {
  import opened RetryChain
  import opened RunSlots
  import Q = SlotQueue
  import P = PathTracker

  datatype Run = Run(o: Options, deadline: int, now: int, slots: Q.Slots, path: P.System, loads: seq<LoadState>)

  datatype Action =
    | Tick(d: nat)
    | EndRun
    | LoseTunnel(gen: nat)
    | Wake(i: nat)
    | Arrive(i: nat)
    | Quit(i: nat)
    | Abandon(i: nat, place: nat)
    | Live(i: nat, move: P.Move)
    | BeginFetch(i: nat)
    | NoLive(i: nat, err: string, draw: real)
    | FetchEnds(i: nat, fetch: Fetch, draw: real)

  predicate Enabled(r: Run, a: Action) {
    match a
    case Tick(_) => true
    case EndRun => true
    case LoseTunnel(g) => g <= r.path.path.generation
    case Wake(i) => i < |r.loads| && r.loads[i].stage.Sleeping? && r.loads[i].stage.wake <= r.now
    case Arrive(i) => i < |r.loads| && r.loads[i].stage.Ready? && !r.path.ended
    case Quit(i) =>
      && i < |r.loads| && r.path.ended
      && (r.loads[i].stage.Ready? || r.loads[i].stage.Sleeping?)
    case Abandon(i, p) =>
      && i < |r.loads| && r.path.ended && r.loads[i].stage.Queued?
      && p < |r.slots.waiting| && r.slots.waiting[p].load == i
    case Live(i, m) =>
      && i < |r.loads| && r.loads[i].stage.Holding? && P.CanMove(r.path, i, m)
      && !r.path.callers[i].Returned? && !r.path.callers[i].Refused?
    case BeginFetch(i) =>
      && i < |r.loads| && r.loads[i].stage.Holding? && P.CanMove(r.path, i, P.Proceed)
      && r.path.callers[i].Returned?
    case NoLive(i, _, _) =>
      && i < |r.loads| && r.loads[i].stage.Holding? && P.CanMove(r.path, i, P.Proceed)
      && r.path.callers[i].Refused? && r.loads[i].stage.slot < |r.slots.grants|
    case FetchEnds(i, _, _) =>
      && i < |r.loads| && r.loads[i].stage.Fetching? && r.loads[i].stage.slot < |r.slots.grants|
  }

  /** The load's next stage once it has spent the attempts `h`. */
  function Next(r: Run, load: LoadState, h: seq<Attempt>, draw: real): LoadState {
    if (h != [] && !Retryable(h[|h| - 1])) || r.o.Attempts() <= |h| then
      LoadState(Done(r.now), h, load.clamped)
    else
      var fit := Fitted(r.o, r.deadline, r.now, |h| + 1, draw);
      var clamped := load.clamped || fit != Wait(RetryDelay(draw, r.o.Mean()));
      LoadState(if fit.GiveUp? then Done(r.now) else Sleeping(r.now + fit.delay), h, clamped)
  }

  function WithStage(r: Run, i: nat, stage: Stage): Run
    requires i < |r.loads|
  {
    r.(loads := r.loads[i := r.loads[i].(stage := stage)])
  }

  function Apply(r: Run, a: Action): Run
    requires Enabled(r, a)
  {
    match a
    case Tick(d) => r.(now := r.now + d)
    case EndRun => r.(path := P.Apply(r.path, P.EndRun))
    case LoseTunnel(g) => r.(path := P.Apply(r.path, P.LoseTunnel(g)))
    case Wake(i) => WithStage(r, i, Ready)
    case Arrive(i) =>
      var stage := if Q.Busy(r.slots) < r.slots.capacity then Holding(|r.slots.grants|) else Queued;
      WithStage(r, i, stage).(slots := Q.Arrive(r.slots, i, r.now))
    case Quit(i) =>
      WithStage(r, i, Done(r.now))
    case Abandon(i, p) =>
      WithStage(r, i, Done(r.now)).(slots := Q.Abandon(r.slots, p))
    case Live(i, m) => r.(path := P.Moved(r.path, i, m))
    case BeginFetch(i) =>
      WithStage(r, i, Fetching(r.loads[i].stage.slot, r.path.callers[i].gen)).(path := P.Moved(r.path, i, P.Proceed))
    case NoLive(i, err, draw) =>
      var load := if r.path.ended then r.loads[i].(stage := Done(r.now))
                  else Next(r, r.loads[i], r.loads[i].history + [NoTunnel(err)], draw);
      r.(slots := Q.Release(r.slots, r.loads[i].stage.slot, r.now),
         loads := HandedOver(r.slots, r.loads, i, load),
         path := P.Moved(r.path, i, P.Proceed))
    case FetchEnds(i, fetch, draw) =>
      var a := Made(Client(fetch, r.loads[i].stage.gen in r.path.path.lost));
      r.(slots := Q.Release(r.slots, r.loads[i].stage.slot, r.now),
         loads := HandedOver(r.slots, r.loads, i, Next(r, r.loads[i], r.loads[i].history + [a], draw)))
  }

  /** The run's state when its loads start: the slots are free, the first tunnel has had
      its warm-up, and no load has done anything. */
  ghost predicate Initial(r: Run) {
    && P.Initial(r.path) && |r.path.callers| == |r.loads|
    && r.slots == Q.Slots(r.o.Slots(), [], [])
    && forall i :: 0 <= i < |r.loads| ==> r.loads[i] == LoadState(Ready, [], false)
  }

  ghost predicate Runs(r: Run, actions: seq<Action>, r': Run)
    decreases |actions|
  {
    if actions == [] then r' == r
    else Enabled(r, actions[0]) && Runs(Apply(r, actions[0]), actions[1..], r')
  }

  ghost predicate Reachable(r: Run) {
    exists r0, actions :: Initial(r0) && Runs(r0, actions, r)
  }

  // ----- What every step keeps -----

  /** The attempts a load has spent were all worth retrying while it goes on, and are
      a chain once it is done. */
  ghost predicate HistoryOk(o: Options, load: LoadState) {
    && IsChain(load.history, o.Attempts())
    && (!load.stage.Done? ==>
          |load.history| < o.Attempts() && forall k :: 0 <= k < |load.history| ==> Retryable(load.history[k]))
  }

  /** Only a load that holds a slot is asking for a client. */
  ghost predicate CallerOk(path: P.System, load: LoadState, i: nat)
    requires i < |path.callers|
  {
    && (!load.stage.Holding? ==> path.callers[i] == P.Outside)
    && (load.stage.Fetching? ==> load.stage.gen <= path.path.generation)
  }

  ghost predicate Inv(r: Run) {
    && P.Reachable(r.path) && |r.path.callers| == |r.loads|
    && SlotsMatch(r.slots, r.loads) && r.slots.capacity == r.o.Slots()
    && (forall i :: 0 <= i < |r.loads| ==> HistoryOk(r.o, r.loads[i]))
    && (forall i :: 0 <= i < |r.loads| ==> CallerOk(r.path, r.loads[i], i))
  }

  /** A step of the path's protocol leaves the other callers where they are. */
  lemma PathStep(path: P.System, a: P.Action)
    requires P.Reachable(path) && P.Enabled(path, a)
    ensures P.Reachable(P.Apply(path, a))
    ensures |P.Apply(path, a).callers| == |path.callers|
    ensures path.path.generation <= P.Apply(path, a).path.generation
    ensures forall j :: 0 <= j < |path.callers| && (a.Caller? ==> j != a.i) ==>
              P.Apply(path, a).callers[j] == path.callers[j]
  {
    var _ := P.ReachOneMore(path, a);
  }

  lemma CallersKept(path: P.System, path': P.System, loads: seq<LoadState>, j: nat)
    requires j < |loads| == |path.callers| == |path'.callers|
    requires CallerOk(path, loads[j], j)
    requires path'.callers[j] == path.callers[j] && path.path.generation <= path'.path.generation
    ensures CallerOk(path', loads[j], j)
  {
  }

  lemma NextOk(r: Run, load: LoadState, a: Attempt, draw: real)
    requires HistoryOk(r.o, load) && !load.stage.Done?
    ensures HistoryOk(r.o, Next(r, load, load.history + [a], draw))
    ensures Slotless(Next(r, load, load.history + [a], draw).stage)
  {
    var h := load.history + [a];
    assert h[|h| - 1] == a;
    assert forall k :: 0 <= k < |h| - 1 ==> h[k] == load.history[k];
  }

  lemma ClockKeepsInv(r: Run, a: Action)
    requires Inv(r) && Enabled(r, a) && (a.Tick? || a.EndRun? || a.LoseTunnel?)
    ensures Inv(Apply(r, a))
  {
    if !a.Tick? {
      var pa := if a.EndRun? then P.EndRun else P.LoseTunnel(a.gen);
      PathStep(r.path, pa);
      forall j | 0 <= j < |r.loads| ensures CallerOk(Apply(r, a).path, r.loads[j], j) {
        CallersKept(r.path, P.Apply(r.path, pa), r.loads, j);
      }
    }
  }

  /** A step that moves load `i` from one stage to another, and nothing else. */
  lemma StageKeepsInv(r: Run, i: nat, stage: Stage)
    requires Inv(r) && i < |r.loads|
    requires Slotless(r.loads[i].stage) && Slotless(stage)
    requires r.loads[i].stage.Done? ==> stage.Done?
    ensures Inv(WithStage(r, i, stage))
  {
    RelabelMatches(r.slots, r.loads, i, r.loads[i].(stage := stage));
  }

  lemma QueueKeepsInv(r: Run, a: Action)
    requires Inv(r) && Enabled(r, a) && (a.Arrive? || a.Abandon?)
    ensures Inv(Apply(r, a))
  {
    var i := a.i;
    if a.Arrive? {
      ArriveMatches(r.slots, r.loads, i, r.now);
    } else {
      AbandonMatches(r.slots, r.loads, i, a.place, r.loads[i].(stage := Done(r.now)));
    }
  }

  lemma LiveKeepsInv(r: Run, i: nat, m: P.Move)
    requires Inv(r) && Enabled(r, Live(i, m))
    ensures Inv(Apply(r, Live(i, m)))
  {
    PathStep(r.path, P.Caller(i, m));
    forall j | 0 <= j < |r.loads| ensures CallerOk(P.Moved(r.path, i, m), r.loads[j], j) {
      if j != i {
        CallersKept(r.path, P.Moved(r.path, i, m), r.loads, j);
      }
    }
  }

  lemma FetchKeepsInv(r: Run, i: nat)
    requires Inv(r) && Enabled(r, BeginFetch(i))
    ensures Inv(Apply(r, BeginFetch(i)))
  {
    var r' := Apply(r, BeginFetch(i));
    PathStep(r.path, P.Caller(i, P.Proceed));
    P.ReturnedClient(r.path, i);
    RelabelMatches(r.slots, r.loads, i, r'.loads[i]);
    forall j | 0 <= j < |r'.loads| ensures CallerOk(r'.path, r'.loads[j], j) {
      if j != i {
        CallersKept(r.path, r'.path, r.loads, j);
      }
    }
  }

  /** The load that takes a slot over was waiting for it: it is not in `live`. */
  lemma HandedOverOk(r: Run, path: P.System, i: nat, load: LoadState)
    requires Inv(r) && i < |r.loads| && |path.callers| == |r.loads|
    requires HistoryOk(r.o, load) && CallerOk(path, load, i) && SlotOf(r.loads[i].stage).Some?
    requires r.path.path.generation <= path.path.generation
    requires forall j :: 0 <= j < |r.loads| && j != i ==> path.callers[j] == r.path.callers[j]
    ensures var loads' := HandedOver(r.slots, r.loads, i, load);
            forall j :: 0 <= j < |loads'| ==> HistoryOk(r.o, loads'[j]) && CallerOk(path, loads'[j], j)
  {
    var loads' := HandedOver(r.slots, r.loads, i, load);
    if r.slots.waiting != [] {
      assert WaiterMatches(r.slots, r.loads, 0);
    }
    forall j | 0 <= j < |loads'| ensures HistoryOk(r.o, loads'[j]) && CallerOk(path, loads'[j], j) {
      assert HistoryOk(r.o, r.loads[j]) && CallerOk(r.path, r.loads[j], j);
    }
  }

  lemma SpendKeepsInv(r: Run, a: Action)
    requires Inv(r) && Enabled(r, a) && (a.NoLive? || a.FetchEnds?)
    ensures Inv(Apply(r, a))
  {
    var i, load := a.i, r.loads[a.i];
    assert LoadMatches(r.slots, r.loads, i);
    if a.NoLive? {
      PathStep(r.path, P.Caller(i, P.Proceed));
      NextOk(r, load, NoTunnel(a.err), a.draw);
      var next := if r.path.ended then load.(stage := Done(r.now))
                  else Next(r, load, load.history + [NoTunnel(a.err)], a.draw);
      ReleaseMatches(r.slots, r.loads, i, load.stage.slot, next, r.now);
      HandedOverOk(r, P.Moved(r.path, i, P.Proceed), i, next);
    } else {
      var made := Made(Client(a.fetch, load.stage.gen in r.path.path.lost));
      NextOk(r, load, made, a.draw);
      var next := Next(r, load, load.history + [made], a.draw);
      ReleaseMatches(r.slots, r.loads, i, load.stage.slot, next, r.now);
      HandedOverOk(r, r.path, i, next);
    }
  }

  lemma StepKeepsInv(r: Run, a: Action)
    requires Inv(r) && Enabled(r, a)
    ensures Inv(Apply(r, a))
  {
    match a
    case Wake(i) => StageKeepsInv(r, i, Ready);
    case Quit(i) => StageKeepsInv(r, i, Done(r.now));
    case Arrive(_) => QueueKeepsInv(r, a);
    case Abandon(_, _) => QueueKeepsInv(r, a);
    case Live(i, m) => LiveKeepsInv(r, i, m);
    case BeginFetch(i) => FetchKeepsInv(r, i);
    case NoLive(_, _, _) => SpendKeepsInv(r, a);
    case FetchEnds(_, _, _) => SpendKeepsInv(r, a);
    case _ => ClockKeepsInv(r, a);
  }

  lemma InitialInv(r: Run)
    requires Initial(r)
    ensures Inv(r)
  {
    assert P.Runs(r.path, [], r.path);
    forall i | 0 <= i < |r.loads| ensures LoadMatches(r.slots, r.loads, i) {
    }
  }

  lemma {:induction false} RunKeepsInv(r: Run, actions: seq<Action>, r': Run)
    requires Inv(r) && Runs(r, actions, r')
    ensures Inv(r')
    decreases |actions|
  {
    if actions != [] {
      StepKeepsInv(r, actions[0]);
      RunKeepsInv(Apply(r, actions[0]), actions[1..], r');
    }
  }

  lemma ReachableInv(r: Run)
    requires Reachable(r)
    ensures Inv(r)
  {
    var r0, actions :| Initial(r0) && Runs(r0, actions, r);
    InitialInv(r0);
    RunKeepsInv(r0, actions, r);
  }

  lemma {:induction false} RunsOneMore(r0: Run, actions: seq<Action>, r: Run, a: Action)
    requires Runs(r0, actions, r) && Enabled(r, a)
    ensures Runs(r0, actions + [a], Apply(r, a))
    decreases |actions|
  {
    if actions == [] {
      assert Runs(Apply(r, a), [], Apply(r, a));
    } else {
      RunsOneMore(Apply(r0, actions[0]), actions[1..], r, a);
      assert (actions + [a])[1..] == actions[1..] + [a];
    }
  }

  lemma ReachOneMore(r: Run, a: Action)
    requires Reachable(r) && Enabled(r, a)
    ensures Reachable(Apply(r, a))
  {
    var r0, actions :| Initial(r0) && Runs(r0, actions, r);
    RunsOneMore(r0, actions, r, a);
  }
}
