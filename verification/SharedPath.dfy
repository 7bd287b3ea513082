/** A run's loads on a probe's own path: the tracker's protocol and the path's, composed.
    The one path the tracker re-opens is the one that opens, swaps, retires and closes
    tunnels, and what the tracker was proved to promise holds of it.

    A call of Reopen is a thread of the path from the moment its caller starts it to the
    moment it returns; the client the tracker's callers see is the path's current one in
    between.  Every step of the composition is at most one step of the tracker's protocol. */
module SharedPath {
  import opened Common
  import C = PathContract
  import O = ProbePath
  import R = ReopenPromises
  import T = PathTracker

  // ----- The composition -----

  /** The call of Reopen that is running: its caller, its number and its thread. */
  datatype Running = Running(caller: nat, call: nat, thread: nat)

  datatype Joint = Joint(tracker: T.Tracker, warmed: seq<nat>, calls: seq<T.Call>, ended: bool, callers: seq<T.Phase>,
                         probe: O.System, running: Option<Running>)

  datatype Action =
    | Probe(step: O.Action)
    | EndRun
    | CallReopen(i: nat)
    | ReopenReturns
    | Caller(i: nat, move: T.Move)

  /** The tracker's side, with the path as it really is. */
  ghost function Tracked(j: Joint): T.System {
    T.System(j.tracker, O.Seen(j.probe), j.warmed, j.calls, j.ended, j.callers)
  }

  ghost predicate Enabled(j: Joint, a: Action) {
    match a
    case Probe(step) => !step.CallReopen? && O.Enabled(j.probe, step)
    case EndRun => true
    case CallReopen(i) => i < |j.callers| && j.callers[i].Reopening? && j.running.None?
    case ReopenReturns =>
      && j.running.Some? && j.running.value.caller < |j.callers| && j.running.value.call < |j.calls|
      && j.running.value.thread < |j.probe.threads| && j.probe.threads[j.running.value.thread].ReopenDone?
    case Caller(i, m) => T.CanMove(Tracked(j), i, m) && !j.callers[i].Reopening?
  }

  /** The re-open has swapped the tunnel. */
  function Swapped(j: Joint, r: Running): Joint
    requires r.caller < |j.callers| && r.call < |j.calls|
  {
    j.(callers := j.callers[r.caller := T.Reopened(r.call)],
       calls := j.calls[r.call := j.calls[r.call].(outcome := T.Opened)],
       warmed := j.warmed + [0])
  }

  function Failed(j: Joint, r: Running): Joint
    requires r.caller < |j.callers| && r.call < |j.calls|
  {
    j.(callers := j.callers[r.caller := T.Finishing(r.call)],
       calls := j.calls[r.call := j.calls[r.call].(outcome := T.Failed)])
  }

  ghost function Apply(j: Joint, a: Action): Joint
    requires Enabled(j, a)
  {
    match a
    case Probe(step) => j.(probe := O.Apply(j.probe, step))
    case EndRun => j.(ended := true)
    case CallReopen(i) =>
      j.(probe := O.Apply(j.probe, O.CallReopen), running := Some(Running(i, j.callers[i].call, |j.probe.threads|)))
    case ReopenReturns =>
      var r := j.running.value;
      (if j.probe.threads[r.thread].outcome.Replaced? then Swapped(j, r) else Failed(j, r)).(running := None)
    case Caller(i, m) =>
      var t := T.Moved(Tracked(j), i, m);
      j.(tracker := t.tracker, warmed := t.warmed, calls := t.calls, callers := t.callers)
  }

  ghost predicate Initial(j: Joint) {
    T.Initial(Tracked(j)) && O.Initial(j.probe) && j.running == None
  }

  ghost predicate Runs(j: Joint, actions: seq<Action>, j': Joint)
    decreases |actions|
  {
    if actions == [] then j' == j
    else Enabled(j, actions[0]) && Runs(Apply(j, actions[0]), actions[1..], j')
  }

  ghost predicate Reachable(j: Joint) {
    exists j0, actions :: Initial(j0) && Runs(j0, actions, j)
  }

  // ----- The tracker's view of it -----

  /** The running call has swapped the tunnel, whether or not it has returned. */
  predicate HasWon(j: Joint) {
    && j.running.Some? && j.running.value.caller < |j.callers| && j.running.value.call < |j.calls|
    && j.running.value.thread < |j.probe.threads| && O.Won(j.probe.threads[j.running.value.thread])
  }

  /** To the tracker a re-open has happened once the tunnel is swapped. */
  ghost function View(j: Joint): T.System {
    Tracked(if HasWon(j) then Swapped(j, j.running.value) else j)
  }

  /** A call of Reopen that can still swap the tunnel. */
  predicate MaySwap(t: O.Thread) {
    t.ReopenStart? || t.Opening? || t.HasOpened?
  }

  predicate IsReopen(t: O.Thread) {
    MaySwap(t) || t.LosingRace? || t.HasSwapped? || t.ReopenDone?
  }

  ghost predicate RunningOk(j: Joint) {
    && (j.running.Some? ==>
          var r := j.running.value;
          && r.caller < |j.callers| && r.call < |j.calls| && j.callers[r.caller] == T.Reopening(r.call)
          && r.thread < |j.probe.threads| && IsReopen(j.probe.threads[r.thread]))
    && (forall t :: 0 <= t < |j.probe.threads| && MaySwap(j.probe.threads[t]) ==>
          j.running.Some? && j.running.value.thread == t)
  }

  ghost predicate Inv(j: Joint) {
    T.Reachable(View(j)) && O.Reachable(j.probe) && RunningOk(j)
  }

  /** `j'` is to the tracker what `j` is, or one step of its protocol later. */
  ghost predicate Follows(j: Joint, j': Joint) {
    View(j') == View(j) || exists b :: T.Enabled(View(j), b) && View(j') == T.Apply(View(j), b)
  }

  /** To the tracker, `j'` is `j` after at most a loss, or the end of the re-open its caller
      is in. */
  ghost predicate PathFollows(j: Joint, j': Joint) {
    || View(j') == View(j)
    || exists b :: IsPathStep(View(j), b) && View(j') == T.Apply(View(j), b)
  }

  ghost predicate IsPathStep(v: T.System, b: T.Action) {
    T.Enabled(v, b) && (b.LoseTunnel? || (b.Caller? && v.callers[b.i].Reopening?))
  }

  lemma FollowedIsReachable(j: Joint, j': Joint)
    requires T.Reachable(View(j)) && Follows(j, j')
    ensures T.Reachable(View(j'))
  {
    if View(j') != View(j) {
      var b :| T.Enabled(View(j), b) && View(j') == T.Apply(View(j), b);
      var _ := T.ReachOneMore(View(j), b);
    }
  }

  // ----- Steps of the path -----

  lemma LossFollows(j: Joint, t: nat)
    requires Inv(j) && Enabled(j, Probe(O.LoseTunnel(t)))
    ensures PathFollows(j, Apply(j, Probe(O.LoseTunnel(t)))) && RunningOk(Apply(j, Probe(O.LoseTunnel(t))))
  {
    var j', p, p' := Apply(j, Probe(O.LoseTunnel(t))), O.Seen(j.probe), O.Seen(O.Apply(j.probe, O.LoseTunnel(t)));
    O.LossSeen(j.probe, t);
    assert p'.generation == p.generation;
    if p' == p {
      assert View(j') == View(j);
    } else {
      var g: nat :| g <= p.generation && p' == C.Lose(p, g);
      assert IsPathStep(View(j), T.LoseTunnel(g)) && View(j') == T.Apply(View(j), T.LoseTunnel(g));
    }
  }

  /** A thread's step other than a swap: no call becomes one that may swap, or has. */
  lemma ThreadsFollow(s: O.System, i: nat, ok: bool)
    requires O.CanStep(s, i) && !(s.threads[i].HasOpened? && !s.fields.closed)
    ensures var s' := O.Stepped(s, i, ok);
            && |s.threads| <= |s'.threads|
            && (forall t :: 0 <= t < |s.threads| ==> O.Won(s'.threads[t]) == O.Won(s.threads[t]))
            && (forall t :: 0 <= t < |s.threads| && IsReopen(s.threads[t]) ==> IsReopen(s'.threads[t]))
            && (forall t :: 0 <= t < |s'.threads| && MaySwap(s'.threads[t]) ==>
                  t < |s.threads| && MaySwap(s.threads[t]))
  {
  }

  lemma StepFollows(j: Joint, i: nat, ok: bool)
    requires Inv(j) && Enabled(j, Probe(O.Step(i, ok)))
    requires !(j.probe.threads[i].HasOpened? && !j.probe.fields.closed)
    ensures View(Apply(j, Probe(O.Step(i, ok)))) == View(j) && RunningOk(Apply(j, Probe(O.Step(i, ok))))
  {
    O.KeepsContract(j.probe, O.Step(i, ok));
    ThreadsFollow(j.probe, i, ok);
  }

  lemma SwapFollows(j: Joint, i: nat, ok: bool)
    requires Inv(j) && Enabled(j, Probe(O.Step(i, ok)))
    requires j.probe.threads[i].HasOpened? && !j.probe.fields.closed
    ensures exists dead ::
              var b := T.Caller(j.running.value.caller, T.ReopenSucceeds(dead));
              IsPathStep(View(j), b) && View(Apply(j, Probe(O.Step(i, ok)))) == T.Apply(View(j), b)
    ensures PathFollows(j, Apply(j, Probe(O.Step(i, ok)))) && RunningOk(Apply(j, Probe(O.Step(i, ok))))
  {
    var j', r, dead := Apply(j, Probe(O.Step(i, ok))), j.running.value, j.probe.threads[i].tunnel in j.probe.lost;
    O.SwapSeen(j.probe, i, ok);
    var b := T.Caller(r.caller, T.ReopenSucceeds(dead));
    assert View(j) == Tracked(j);
    assert IsPathStep(View(j), b);
    assert View(j') == Tracked(Swapped(j', r)) == T.Apply(View(j), b);
  }

  lemma ProbeFollows(j: Joint, step: O.Action)
    requires Inv(j) && Enabled(j, Probe(step))
    ensures PathFollows(j, Apply(j, Probe(step))) && RunningOk(Apply(j, Probe(step)))
    ensures O.Reachable(Apply(j, Probe(step)).probe)
  {
    ProbeReaches(j.probe, step);
    match step
    case LoseTunnel(t) => LossFollows(j, t);
    case CallClose => O.KeepsContract(j.probe, step);
    case Step(i, ok) =>
      if j.probe.threads[i].HasOpened? && !j.probe.fields.closed {
        SwapFollows(j, i, ok);
      } else {
        StepFollows(j, i, ok);
      }
  }

  lemma ProbeReaches(s: O.System, step: O.Action)
    requires O.Reachable(s) && O.Enabled(s, step)
    ensures O.Reachable(O.Apply(s, step))
  {
    var s0, actions :| O.Initial(s0) && O.Runs(s0, actions, s);
    ProbeRunsOneMore(s0, actions, s, step);
  }

  lemma {:induction false} ProbeRunsOneMore(s0: O.System, actions: seq<O.Action>, s: O.System, step: O.Action)
    requires O.Runs(s0, actions, s) && O.Enabled(s, step)
    ensures O.Runs(s0, actions + [step], O.Apply(s, step))
    decreases |actions|
  {
    if actions == [] {
      assert O.Runs(O.Apply(s, step), [], O.Apply(s, step));
    } else {
      ProbeRunsOneMore(O.Apply(s0, actions[0]), actions[1..], s, step);
      assert (actions + [step])[1..] == actions[1..] + [step];
    }
  }

  // ----- Steps of the tracker's callers -----

  /** While a call runs, its caller is the only one in a re-open. */
  lemma AloneInReopen(j: Joint, i: nat)
    requires Inv(j) && j.running.Some? && i < |j.callers| && i != j.running.value.caller
    ensures !R.InReopen(j.callers[i]) && j.tracker.inflight.Some?
  {
    R.SingleFlight(View(j));
    assert R.InReopen(View(j).callers[j.running.value.caller]);
    assert View(j).callers[i] == j.callers[i];
  }

  lemma CallStarts(j: Joint, i: nat)
    requires Inv(j) && Enabled(j, CallReopen(i))
    ensures View(Apply(j, CallReopen(i))) == View(j) && RunningOk(Apply(j, CallReopen(i)))
    ensures O.Reachable(Apply(j, CallReopen(i)).probe)
  {
    O.KeepsContract(j.probe, O.CallReopen);
    ProbeReaches(j.probe, O.CallReopen);
    T.ReachableInv(View(j));
    assert T.PhaseOk(View(j), i);
  }

  lemma CallReturns(j: Joint)
    requires Inv(j) && Enabled(j, ReopenReturns)
    ensures HasWon(j) ==> View(Apply(j, ReopenReturns)) == View(j)
    ensures !HasWon(j) ==>
              var b := T.Caller(j.running.value.caller, T.ReopenFails);
              IsPathStep(View(j), b) && View(Apply(j, ReopenReturns)) == T.Apply(View(j), b)
    ensures PathFollows(j, Apply(j, ReopenReturns)) && RunningOk(Apply(j, ReopenReturns))
  {
    var j', r := Apply(j, ReopenReturns), j.running.value;
    if HasWon(j) {
      assert View(j') == View(j);
    } else {
      var b := T.Caller(r.caller, T.ReopenFails);
      assert IsPathStep(View(j), b) && View(j') == T.Apply(View(j), b);
    }
  }

  /** What a caller that is in no re-open can count on while one has swapped the tunnel. */
  lemma CallerBeside(j: Joint, i: nat, m: T.Move)
    requires Inv(j) && HasWon(j) && Enabled(j, Caller(i, m))
    ensures i != j.running.value.caller && View(j).callers[i] == j.callers[i]
    ensures !R.InReopen(j.callers[i]) && j.tracker.inflight.Some?
    ensures (j.callers[i].Closing? || j.callers[i].Outcome?) ==> j.callers[i].call != j.running.value.call
  {
    var v, r := View(j), j.running.value;
    AloneInReopen(j, i);
    T.ReachableInv(v);
    assert T.PhaseOk(v, i) && T.PhaseOk(v, r.caller);
  }

  lemma CallerMovesBeside(j: Joint, i: nat, m: T.Move)
    requires Inv(j) && HasWon(j) && Enabled(j, Caller(i, m))
    ensures T.CanMove(View(j), i, m)
    ensures View(Apply(j, Caller(i, m))) == T.Moved(View(j), i, m)
  {
    var v, r, j' := View(j), j.running.value, Apply(j, Caller(i, m));
    CallerBeside(j, i, m);
    assert T.CanMove(v, i, m);
    var t, moved := T.Moved(Tracked(j), i, m), T.Moved(v, i, m);
    assert moved.calls == t.calls[r.call := t.calls[r.call].(outcome := T.Opened)];
    assert moved.callers == t.callers[r.caller := T.Reopened(r.call)];
    assert moved.warmed == t.warmed + [0];
  }

  lemma CallerKeepsRunning(j: Joint, i: nat, m: T.Move)
    requires Inv(j) && Enabled(j, Caller(i, m))
    ensures RunningOk(Apply(j, Caller(i, m)))
  {
  }

  lemma CallerFollows(j: Joint, i: nat, m: T.Move)
    requires Inv(j) && Enabled(j, Caller(i, m))
    ensures T.CanMove(View(j), i, m) && View(Apply(j, Caller(i, m))) == T.Moved(View(j), i, m)
    ensures View(j).callers[i] == j.callers[i]
  {
    if HasWon(j) {
      CallerBeside(j, i, m);
      CallerMovesBeside(j, i, m);
    }
  }

  // ----- The composition refines the tracker's protocol -----

  /** Every step of the composition is one of the tracker's protocol, or none to it. */
  lemma StepRefines(j: Joint, a: Action)
    requires Inv(j) && Enabled(j, a)
    ensures Inv(Apply(j, a)) && Follows(j, Apply(j, a))
  {
    match a {
      case Probe(step) => ProbeFollows(j, step);
      case EndRun => assert T.Enabled(View(j), T.EndRun) && View(Apply(j, a)) == T.Apply(View(j), T.EndRun);
      case CallReopen(i) => CallStarts(j, i);
      case ReopenReturns => CallReturns(j);
      case Caller(i, m) =>
        CallerFollows(j, i, m);
        assert T.Enabled(View(j), T.Caller(i, m));
        CallerKeepsRunning(j, i, m);
    }
    FollowedIsReachable(j, Apply(j, a));
  }

  lemma {:induction false} RunKeepsInv(j: Joint, actions: seq<Action>, j': Joint)
    requires Inv(j) && Runs(j, actions, j')
    ensures Inv(j')
    decreases |actions|
  {
    if actions != [] {
      StepRefines(j, actions[0]);
      RunKeepsInv(Apply(j, actions[0]), actions[1..], j');
    }
  }

  /** In every interleaving of loads, re-opens, retirements, closes and losses, what the
      tracker's callers see is a state of the tracker's own protocol, so all it promises of
      such states holds on the probe's own path. */
  lemma Refines(j: Joint)
    requires Reachable(j)
    ensures T.Reachable(View(j)) && O.Reachable(j.probe) && Inv(j)
  {
    var j0, actions :| Initial(j0) && Runs(j0, actions, j);
    assert T.Runs(View(j0), [], View(j0)) && O.Runs(j0.probe, [], j0.probe);
    RunKeepsInv(j0, actions, j);
  }

  // ----- What that promises of the probe's path -----

  lemma {:induction false} GenerationAtMost(v: T.System, k: nat)
    requires T.Chained(v) && k <= |v.calls|
    ensures T.LeftBy(v.calls, k) <= k
  {
    if 0 < k {
      assert T.Follows(v.calls, k - 1);
      GenerationAtMost(v, k - 1);
    }
  }

  /** The probe's path is re-opened by one call at a time, while its current tunnel is lost,
      and never more often than the run's limit. */
  lemma ReopenedOnlyWhenLost(j: Joint)
    requires Reachable(j)
    ensures var ts := j.probe.threads;
            forall t, u :: 0 <= t < |ts| && 0 <= u < |ts| && MaySwap(ts[t]) && MaySwap(ts[u]) ==> t == u
    ensures (exists t :: 0 <= t < |j.probe.threads| && MaySwap(j.probe.threads[t])) ==>
              j.probe.fields.tunnel in j.probe.lost
    ensures j.probe.fields.reopened <= j.tracker.limit
  {
    Refines(j);
    var v := View(j);
    T.ReachableInv(v);
    GenerationAtMost(v, |v.calls|);
    O.ReachableInv(j.probe);
    if t :| 0 <= t < |j.probe.threads| && MaySwap(j.probe.threads[t]) {
      R.SingleFlight(v);
      assert v.callers[j.running.value.caller].Reopening?;
    }
  }

  /** A whole call of Reopen: when it returns, the generation is one more than the one it
      was called on if it succeeded, and that one still if it failed. */
  lemma WholeCall(j: Joint)
    requires Reachable(j) && Enabled(j, ReopenReturns)
    ensures var r := j.running.value;
            O.Seen(j.probe).generation ==
              j.calls[r.call].base + if j.probe.threads[r.thread].outcome.Replaced? then 1 else 0
  {
    Refines(j);
    var v, r := View(j), j.running.value;
    T.ReachableInv(v);
    assert T.PhaseOk(v, r.caller);
  }
}
