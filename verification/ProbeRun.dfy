/** A whole health run on the probe's own path: the loads, their slots and their chains of
    `HealthRun`, with the tracker's callers and the tunnels' owner of `SharedPath`.

    Each load moves on what the path and the tracker really are at that moment, and a call
    of Reopen is the steps of its thread.  What the loads see is a run of `HealthRun`, so
    all that is promised of those holds; and the loads get on, through every Reopen. */
module ProbeRun {
  import opened Common
  import opened RetryChain
  import opened RunPromises
  import opened RunSlots
  import E = RunEnds
  import H = HealthRun
  import N = TunnelEnds
  import O = ProbePath
  import Q = SlotQueue
  import S = SharedPath
  import T = PathTracker

  datatype Whole = Whole(o: Options, deadline: int, now: int, slots: Q.Slots, loads: seq<LoadState>, joint: S.Joint)

  datatype Action = Load(action: H.Action) | Path(step: S.Action)

  /** The run, on the path and the tracker as they are. */
  ghost function Real(w: Whole): H.Run {
    H.Run(w.o, w.deadline, w.now, w.slots, S.Tracked(w.joint), w.loads)
  }

  /** The run, a re-open counting as over once its tunnel is swapped. */
  ghost function Seen(w: Whole): H.Run {
    H.Run(w.o, w.deadline, w.now, w.slots, S.View(w.joint), w.loads)
  }

  /** The move in `live` that a step of a load is. */
  function MoveOf(a: H.Action): Option<T.Move> {
    match a
    case Live(_, m) => Some(m)
    case BeginFetch(_) => Some(T.Proceed)
    case NoLive(_, _, _) => Some(T.Proceed)
    case _ => None
  }

  ghost predicate Enabled(w: Whole, a: Action) {
    match a
    case Load(action) =>
      && H.Enabled(Real(w), action) && !action.EndRun? && !action.LoseTunnel?
      && (action.Live? ==> !w.joint.callers[action.i].Reopening?)
    case Path(step) => !step.Caller? && S.Enabled(w.joint, step)
  }

  ghost function Apply(w: Whole, a: Action): Whole
    requires Enabled(w, a)
  {
    match a
    case Load(action) =>
      var r := H.Apply(Real(w), action);
      var joint := if MoveOf(action).None? then w.joint
                   else S.Apply(w.joint, S.Caller(StepOf(action).value, MoveOf(action).value));
      w.(now := r.now, slots := r.slots, loads := r.loads, joint := joint)
    case Path(step) => w.(joint := S.Apply(w.joint, step))
  }

  ghost predicate Initial(w: Whole) {
    H.Initial(Real(w)) && S.Initial(w.joint)
  }

  ghost predicate Runs(w: Whole, actions: seq<Action>, w': Whole)
    decreases |actions|
  {
    if actions == [] then w' == w
    else Enabled(w, actions[0]) && Runs(Apply(w, actions[0]), actions[1..], w')
  }

  ghost predicate Reachable(w: Whole) {
    exists w0, actions :: Initial(w0) && Runs(w0, actions, w)
  }

  // ----- It refines the run -----

  ghost predicate Inv(w: Whole) {
    H.Reachable(Seen(w)) && S.Inv(w.joint)
  }

  /** `w'` is to the loads what `w` is, or one step of the run later. */
  ghost predicate Follows(w: Whole, w': Whole) {
    Seen(w') == Seen(w) || exists b :: H.Enabled(Seen(w), b) && Seen(w') == H.Apply(Seen(w), b)
  }

  /** A step of a load that is not in `live`. */
  lemma PlainStepFollows(w: Whole, a: H.Action)
    requires Inv(w) && Enabled(w, Load(a)) && MoveOf(a).None?
    ensures H.Enabled(Seen(w), a) && Seen(Apply(w, Load(a))) == H.Apply(Seen(w), a)
  {
  }

  lemma LiveStepFollows(w: Whole, a: H.Action)
    requires Inv(w) && Enabled(w, Load(a)) && MoveOf(a).Some?
    ensures H.Enabled(Seen(w), a) && Seen(Apply(w, Load(a))) == H.Apply(Seen(w), a)
  {
    S.CallerFollows(w.joint, a.i, MoveOf(a).value);
  }

  lemma PathStepFollows(w: Whole, step: S.Action)
    requires Inv(w) && Enabled(w, Path(step))
    ensures Follows(w, Apply(w, Path(step)))
  {
    var v, v' := S.View(w.joint), S.View(S.Apply(w.joint, step));
    match step {
      case Probe(p) => S.ProbeFollows(w.joint, p);
      case CallReopen(i) => S.CallStarts(w.joint, i);
      case ReopenReturns => S.CallReturns(w.joint);
      case EndRun => assert H.Enabled(Seen(w), H.EndRun) && v' == T.Apply(v, T.EndRun);
    }
    if v' != v && !step.EndRun? {
      var b :| S.IsPathStep(v, b) && v' == T.Apply(v, b);
      if b.LoseTunnel? {
        assert H.Enabled(Seen(w), H.LoseTunnel(b.gen));
      } else {
        H.ReachableInv(Seen(w));
        assert H.CallerOk(v, w.loads[b.i], b.i);
        assert H.Enabled(Seen(w), H.Live(b.i, b.move));
      }
    }
  }

  /** Every step, of a load or of the path, is one step of the run or none to it. */
  lemma StepRefines(w: Whole, a: Action)
    requires Inv(w) && Enabled(w, a)
    ensures Inv(Apply(w, a)) && Follows(w, Apply(w, a))
  {
    match a {
      case Load(action) =>
        if MoveOf(action).None? {
          PlainStepFollows(w, action);
        } else {
          LiveStepFollows(w, action);
          S.StepRefines(w.joint, S.Caller(action.i, MoveOf(action).value));
        }
      case Path(step) =>
        PathStepFollows(w, step);
        S.StepRefines(w.joint, step);
    }
    if Seen(Apply(w, a)) != Seen(w) {
      var b :| H.Enabled(Seen(w), b) && Seen(Apply(w, a)) == H.Apply(Seen(w), b);
      H.ReachOneMore(Seen(w), b);
    }
  }

  lemma {:induction false} RunKeepsInv(w: Whole, actions: seq<Action>, w': Whole)
    requires Inv(w) && Runs(w, actions, w')
    ensures Inv(w')
    decreases |actions|
  {
    if actions != [] {
      StepRefines(w, actions[0]);
      RunKeepsInv(Apply(w, actions[0]), actions[1..], w');
    }
  }

  lemma InitialInv(w: Whole)
    requires Initial(w)
    ensures Inv(w)
  {
    assert H.Runs(Seen(w), [], Seen(w));
    assert S.Runs(w.joint, [], w.joint);
    S.Refines(w.joint);
  }

  /** In every interleaving of the loads with the threads that open, swap, retire and close
      the tunnels, what the loads see is a state of `HealthRun`, so its promises hold on the
      probe's own path. */
  lemma Refines(w: Whole)
    requires Reachable(w)
    ensures H.Reachable(Seen(w)) && S.Inv(w.joint)
  {
    var w0, actions :| Initial(w0) && Runs(w0, actions, w);
    InitialInv(w0);
    RunKeepsInv(w0, actions, w);
  }

  // ----- It gets on -----

  /** A step of a load, of the Reopen one of them is in, or its start or return. */
  ghost predicate GetsOn(w: Whole, a: Action) {
    && Enabled(w, a)
    && match a
       case Load(action) => StepOf(action).Some?
       case Path(CallReopen(_)) => true
       case Path(ReopenReturns) => true
       case Path(Probe(p)) => p.Step? && w.joint.running.Some? && p.i == w.joint.running.value.thread
       case _ => false
  }

  /** The thread of a Reopen that is running can step, or the call returns. */
  lemma ReopenGetsOn(w: Whole, k: nat) returns (a: Action)
    requires Inv(w) && k < |w.joint.callers| && w.joint.callers[k].Reopening?
    ensures GetsOn(w, a)
  {
    var j := w.joint;
    if j.running.None? {
      a := Path(S.CallReopen(k));
    } else if j.probe.threads[j.running.value.thread].ReopenDone? {
      a := Path(S.ReopenReturns);
    } else {
      O.ReachableInv(j.probe);
      assert O.ThreadOk(j.probe, j.running.value.thread);
      a := Path(S.Probe(O.Step(j.running.value.thread, true)));
    }
  }

  /** A load that is not in a Reopen can take on the path as it is the step it can take on
      the path as it is seen. */
  lemma SeenStepIsReal(w: Whole, a: H.Action, k: nat)
    requires Inv(w) && H.Enabled(Seen(w), a) && StepOf(a) == Some(k)
    requires k < |w.joint.callers| && !w.joint.callers[k].Reopening?
    ensures Enabled(w, Load(a))
  {
    if w.joint.running.Some? {
      S.AloneInReopen(w.joint, k);
    }
  }

  /** While some load is neither done nor waiting out its spacing, some load can step, or the
      Reopen that one of them is inside can: its own thread never waits. */
  lemma NeverStuck(w: Whole, i: nat) returns (a: Action)
    requires Inv(w) && i < |w.loads|
    requires !w.loads[i].stage.Done? && !w.loads[i].stage.Sleeping?
    ensures GetsOn(w, a)
  {
    H.ReachableInv(Seen(w));
    SomeLoadSteps(Seen(w), i);
    var b :| H.Enabled(Seen(w), b) && StepOf(b).Some?;
    var k := StepOf(b).value;
    if w.joint.callers[k].Reopening? {
      a := ReopenGetsOn(w, k);
    } else {
      SeenStepIsReal(w, b, k);
      a := Load(b);
    }
  }

  // ----- It ends -----

  /** The steps left of a Reopen, its start and its return included. */
  ghost function ReopenWork(j: S.Joint): nat {
    if j.running.Some? then
      var thread := j.running.value.thread;
      if thread < |j.probe.threads| then 1 + N.ThreadWork(j.probe.threads[thread]) else 0
    else if exists k :: 0 <= k < |j.callers| && j.callers[k].Reopening? then 9
    else 0
  }

  /** The loads have less to do, or as much and the Reopen one of them is in has less. */
  ghost predicate Closer(w: Whole, w': Whole) {
    || E.Work(Seen(w')) < E.Work(Seen(w))
    || (E.Work(Seen(w')) == E.Work(Seen(w)) && ReopenWork(w'.joint) < ReopenWork(w.joint))
  }

  /** The end of a Reopen is a step of the load that is in it. */
  lemma EndOfReopenCloser(w: Whole, w': Whole, b: T.Action)
    requires Inv(w) && w' == w.(joint := w'.joint)
    requires S.IsPathStep(S.View(w.joint), b) && b.Caller? && S.View(w'.joint) == T.Apply(S.View(w.joint), b)
    ensures Closer(w, w')
  {
    H.ReachableInv(Seen(w));
    assert H.CallerOk(S.View(w.joint), w.loads[b.i], b.i);
    E.StepLessWork(Seen(w), H.Live(b.i, b.move));
    assert Seen(w') == H.Apply(Seen(w), H.Live(b.i, b.move));
  }

  lemma LoadCloser(w: Whole, a: H.Action)
    requires Inv(w) && GetsOn(w, Load(a))
    ensures Closer(w, Apply(w, Load(a)))
  {
    H.ReachableInv(Seen(w));
    if MoveOf(a).None? { PlainStepFollows(w, a); } else { LiveStepFollows(w, a); }
    E.StepLessWork(Seen(w), a);
  }

  lemma CallCloser(w: Whole, k: nat)
    requires Inv(w) && Enabled(w, Path(S.CallReopen(k)))
    ensures Closer(w, Apply(w, Path(S.CallReopen(k))))
  {
    S.CallStarts(w.joint, k);
  }

  lemma ReturnCloser(w: Whole)
    requires Inv(w) && Enabled(w, Path(S.ReopenReturns))
    ensures Closer(w, Apply(w, Path(S.ReopenReturns)))
  {
    var j, w' := w.joint, Apply(w, Path(S.ReopenReturns));
    S.CallReturns(j);
    if S.HasWon(j) {
      forall k | 0 <= k < |w'.joint.callers| ensures !w'.joint.callers[k].Reopening? {
        if k != j.running.value.caller {
          S.AloneInReopen(j, k);
        }
      }
    } else {
      EndOfReopenCloser(w, w', T.Caller(j.running.value.caller, T.ReopenFails));
    }
  }

  lemma ThreadCloser(w: Whole, ok: bool)
    requires Inv(w) && w.joint.running.Some?
    requires Enabled(w, Path(S.Probe(O.Step(w.joint.running.value.thread, ok))))
    ensures Closer(w, Apply(w, Path(S.Probe(O.Step(w.joint.running.value.thread, ok)))))
  {
    var j, i := w.joint, w.joint.running.value.thread;
    var w' := Apply(w, Path(S.Probe(O.Step(i, ok))));
    if j.probe.threads[i].HasOpened? && !j.probe.fields.closed {
      S.SwapFollows(j, i, ok);
      var dead :| S.IsPathStep(S.View(j), T.Caller(j.running.value.caller, T.ReopenSucceeds(dead)))
                  && S.View(w'.joint) ==
                    T.Apply(S.View(j), T.Caller(j.running.value.caller, T.ReopenSucceeds(dead)));
      EndOfReopenCloser(w, w', T.Caller(j.running.value.caller, T.ReopenSucceeds(dead)));
    } else {
      S.StepFollows(j, i, ok);
      N.ThreadMovesOn(j.probe, i, ok);
    }
  }

  /** Every such step brings the run closer to its end. */
  lemma StepCloser(w: Whole, a: Action)
    requires Inv(w) && GetsOn(w, a)
    ensures Closer(w, Apply(w, a))
  {
    match a
    case Load(action) => LoadCloser(w, action);
    case Path(CallReopen(k)) => CallCloser(w, k);
    case Path(ReopenReturns) => ReturnCloser(w);
    case Path(Probe(p)) => ThreadCloser(w, p.ok);
  }

  ghost predicate CanFinish(w: Whole) {
    exists actions, w' :: Runs(w, actions, w') && forall i :: 0 <= i < |w'.loads| ==> w'.loads[i].stage.Done?
  }

  lemma FinishesAfter(w: Whole, a: Action)
    requires Enabled(w, a) && CanFinish(Apply(w, a))
    ensures CanFinish(w)
  {
    var actions, w' :|
      Runs(Apply(w, a), actions, w') && forall i :: 0 <= i < |w'.loads| ==> w'.loads[i].stage.Done?;
    assert ([a] + actions)[1..] == actions;
    assert Runs(w, [a] + actions, w');
  }

  /** A load's wait comes to its end: no more is left to do, and the load can step. */
  lemma WaitEnds(w: Whole, i: nat) returns (tick: Action)
    requires Inv(w) && i < |w.loads| && w.loads[i].stage.Sleeping?
    ensures Enabled(w, tick) && Inv(Apply(w, tick)) && GetsOn(Apply(w, tick), Load(H.Wake(i)))
    ensures E.Work(Seen(Apply(w, tick))) == E.Work(Seen(w))
    ensures Apply(w, tick).joint == w.joint
  {
    var a := H.Tick(Max(w.loads[i].stage.wake - w.now, 0));
    tick := Load(a);
    H.ReachableInv(Seen(w));
    PlainStepFollows(w, a);
    E.StepLessWork(Seen(w), a);
    StepRefines(w, tick);
  }

  /** From wherever a run on the probe's own path has got to, it can go on until every load is
      done, its tunnels being re-opened by threads of their own. */
  lemma {:induction false} EveryRunCanFinish(w: Whole)
    requires Inv(w)
    ensures CanFinish(w)
    decreases E.Work(Seen(w)), ReopenWork(w.joint), 1
  {
    if forall i :: 0 <= i < |w.loads| ==> w.loads[i].stage.Done? {
      assert Runs(w, [], w);
    } else {
      var i :| 0 <= i < |w.loads| && !w.loads[i].stage.Done?;
      if w.loads[i].stage.Sleeping? {
        var tick := WaitEnds(w, i);
        FinishesWithStep(Apply(w, tick), Load(H.Wake(i)));
        FinishesAfter(w, tick);
      } else {
        var a := NeverStuck(w, i);
        FinishesWithStep(w, a);
      }
    }
  }

  lemma {:induction false} FinishesWithStep(w: Whole, a: Action)
    requires Inv(w) && GetsOn(w, a)
    ensures CanFinish(w)
    decreases E.Work(Seen(w)), ReopenWork(w.joint), 0
  {
    StepRefines(w, a);
    StepCloser(w, a);
    EveryRunCanFinish(Apply(w, a));
    FinishesAfter(w, a);
  }
}
