/** A run comes to an end: its loads take only so many steps between them, and as long as
    some load is not done one of them can be taken, at once or when a wait is over. */
module RunEnds {
  import opened Common
  import opened HealthRun
  import opened RetryChain
  import opened RunPromises
  import opened RunSlots
  import P = PathTracker

  // ----- What is left to do -----

  /** The steps a caller can still take in `live`. */
  function PhaseWork(p: P.Phase): nat {
    match p
    case Outside => 11
    case Entered(_) => 10
    case HasClient(_, _) => 9
    case Looked(_, _, _) => 8
    case Reopening(_) => 7
    case Reopened(_) => 6
    case Warming(_, _) => 5
    case Finishing(_) => 4
    case Closing(_) => 3
    case Awaiting(_) => 2
    case Outcome(_) => 1
    case Rereading(_) => 1
    case Returned(_, _) => 0
    case Refused(_) => 0
  }

  /** The steps of one attempt that a load can still take. */
  function StageWork(stage: Stage, p: P.Phase): nat {
    match stage
    case Sleeping(_) => 16
    case Ready => 15
    case Queued => 14
    case Holding(_) => 2 + PhaseWork(p)
    case Fetching(_, _) => 1
    case Done(_) => 0
  }

  function LoadWork(o: Options, load: LoadState, p: P.Phase): nat {
    if load.stage.Done? || o.Attempts() <= |load.history| then 0
    else (o.Attempts() - |load.history| - 1) * 17 + StageWork(load.stage, p)
  }

  function WorkAt(r: Run, i: nat): nat {
    if i < |r.loads| && i < |r.path.callers| then LoadWork(r.o, r.loads[i], r.path.callers[i]) else 0
  }

  function WorkTo(r: Run, n: nat): nat {
    if n == 0 then 0 else WorkTo(r, n - 1) + WorkAt(r, n - 1)
  }

  function Work(r: Run): nat {
    WorkTo(r, |r.loads|)
  }

  lemma {:induction false} NoMoreWork(r: Run, r': Run, n: nat)
    requires forall j :: 0 <= j < n ==> WorkAt(r', j) <= WorkAt(r, j)
    ensures WorkTo(r', n) <= WorkTo(r, n)
  {
    if 0 < n {
      NoMoreWork(r, r', n - 1);
    }
  }

  lemma {:induction false} LessWork(r: Run, r': Run, n: nat, i: nat)
    requires forall j :: 0 <= j < n ==> WorkAt(r', j) <= WorkAt(r, j)
    requires i < n && WorkAt(r', i) < WorkAt(r, i)
    ensures WorkTo(r', n) < WorkTo(r, n)
  {
    if i == n - 1 {
      NoMoreWork(r, r', n - 1);
    } else {
      LessWork(r, r', n - 1, i);
    }
  }

  // ----- Every step of a load takes some of it away -----

  /** A load's attempt is spent: it is done, or goes on with one attempt less. */
  lemma SpentLess(r: Run, load: LoadState, a: Attempt, draw: real, p: P.Phase)
    requires HistoryOk(r.o, load) && !load.stage.Done? && 0 < StageWork(load.stage, p)
    ensures LoadWork(r.o, Next(r, load, load.history + [a], draw), P.Outside) < LoadWork(r.o, load, p)
  {
  }

  lemma LiveMovesOn(path: P.System, i: nat, m: P.Move)
    requires P.CanMove(path, i, m) && !path.callers[i].Returned? && !path.callers[i].Refused?
    ensures i < |P.Moved(path, i, m).callers| == |path.callers|
    ensures PhaseWork(P.Moved(path, i, m).callers[i]) < PhaseWork(path.callers[i])
  {
  }

  lemma SpenderLessWork(r: Run, a: Action)
    requires Inv(r) && Enabled(r, a) && (a.NoLive? || a.FetchEnds?)
    ensures WorkAt(Apply(r, a), a.i) < WorkAt(r, a.i)
  {
    var i := a.i;
    assert HistoryOk(r.o, r.loads[i]) && CallerOk(r.path, r.loads[i], i);
    var made := if a.NoLive? then NoTunnel(a.err)
                else Made(Client(a.fetch, r.loads[i].stage.gen in r.path.path.lost));
    SpentLess(r, r.loads[i], made, a.draw, r.path.callers[i]);
  }

  /** A step that spends an attempt moves on the load that takes the slot over, if there is
      one, and leaves the others where they are. */
  lemma TakeoverNoMoreWork(r: Run, a: Action, j: nat)
    requires Inv(r) && Enabled(r, a) && (a.NoLive? || a.FetchEnds?) && j < |r.loads| && j != a.i
    ensures WorkAt(Apply(r, a), j) <= WorkAt(r, j)
  {
    assert Apply(r, a).path.callers[j] == r.path.callers[j];
    assert CallerOk(r.path, r.loads[j], j);
    if r.slots.waiting != [] {
      assert WaiterMatches(r.slots, r.loads, 0);
    }
  }

  lemma SpendLessWork(r: Run, a: Action)
    requires Inv(r) && Enabled(r, a) && (a.NoLive? || a.FetchEnds?)
    ensures WorkAt(Apply(r, a), a.i) < WorkAt(r, a.i)
    ensures forall j :: 0 <= j < |r.loads| ==> WorkAt(Apply(r, a), j) <= WorkAt(r, j)
  {
    SpenderLessWork(r, a);
    forall j | 0 <= j < |r.loads| && j != a.i ensures WorkAt(Apply(r, a), j) <= WorkAt(r, j) {
      TakeoverNoMoreWork(r, a, j);
    }
  }

  lemma OneLoadLessWork(r: Run, a: Action)
    requires Inv(r) && Enabled(r, a) && StepOf(a).Some? && !a.NoLive? && !a.FetchEnds?
    ensures StepOf(a).value < |r.loads| && WorkAt(Apply(r, a), StepOf(a).value) < WorkAt(r, StepOf(a).value)
    ensures forall j :: 0 <= j < |r.loads| ==> WorkAt(Apply(r, a), j) <= WorkAt(r, j)
  {
    var i := StepOf(a).value;
    assert HistoryOk(r.o, r.loads[i]) && CallerOk(r.path, r.loads[i], i);
    if a.Live? {
      LiveMovesOn(r.path, i, a.move);
    }
  }

  /** Each step of a load leaves less to do, and no step of the clock, the context or the
      tunnels leaves more. */
  lemma StepLessWork(r: Run, a: Action)
    requires Inv(r) && Enabled(r, a)
    ensures |Apply(r, a).loads| == |r.loads|
    ensures StepOf(a).Some? ==> Work(Apply(r, a)) < Work(r)
    ensures StepOf(a).None? ==> Work(Apply(r, a)) == Work(r)
  {
    var r' := Apply(r, a);
    if StepOf(a).None? {
      assert forall j :: 0 <= j < |r.loads| ==> WorkAt(r', j) == WorkAt(r, j);
      NoMoreWork(r, r', |r.loads|);
      NoMoreWork(r', r, |r.loads|);
    } else {
      if a.NoLive? || a.FetchEnds? { SpendLessWork(r, a); } else { OneLoadLessWork(r, a); }
      LessWork(r, r', |r.loads|, StepOf(a).value);
    }
  }

  // ----- A run ends -----

  /** How many of the actions are steps of loads. */
  function LoadSteps(actions: seq<Action>): nat {
    if actions == [] then 0 else (if StepOf(actions[0]).Some? then 1 else 0) + LoadSteps(actions[1..])
  }

  lemma {:induction false} StepsCostWork(r: Run, actions: seq<Action>, r': Run)
    requires Inv(r) && Runs(r, actions, r')
    ensures LoadSteps(actions) + Work(r') <= Work(r)
    decreases |actions|
  {
    if actions != [] {
      StepKeepsInv(r, actions[0]);
      StepLessWork(r, actions[0]);
      StepsCostWork(Apply(r, actions[0]), actions[1..], r');
    }
  }

  lemma {:induction false} WorkAtFirst(r: Run, n: nat)
    requires Initial(r) && n <= |r.loads|
    ensures WorkTo(r, n) <= n * (17 * r.o.Attempts())
  {
    if 0 < n {
      WorkAtFirst(r, n - 1);
      assert WorkAt(r, n - 1) <= 17 * r.o.Attempts();
      assert n * (17 * r.o.Attempts()) == (n - 1) * (17 * r.o.Attempts()) + 17 * r.o.Attempts();
    }
  }

  /** However a run goes, its loads take at most seventeen steps an attempt between them. */
  lemma RunIsBounded(r0: Run, actions: seq<Action>, r: Run)
    requires Initial(r0) && Runs(r0, actions, r)
    ensures LoadSteps(actions) <= |r0.loads| * (17 * r0.o.Attempts())
  {
    InitialInv(r0);
    StepsCostWork(r0, actions, r);
    WorkAtFirst(r0, |r0.loads|);
  }

  ghost predicate AllDone(r: Run) {
    forall i :: 0 <= i < |r.loads| ==> r.loads[i].stage.Done?
  }

  ghost predicate CanFinish(r: Run) {
    exists actions, r' :: Runs(r, actions, r') && AllDone(r')
  }

  lemma FinishesAfter(r: Run, a: Action)
    requires Enabled(r, a) && CanFinish(Apply(r, a))
    ensures CanFinish(r)
  {
    var actions, r' :| Runs(Apply(r, a), actions, r') && AllDone(r');
    assert ([a] + actions)[1..] == actions;
    assert Runs(r, [a] + actions, r');
  }

  /** From wherever a run has got to, it can go on until every load is done: with the bound
      on its steps, the wait for its loads returns. */
  lemma {:induction false} EveryRunCanFinish(r: Run)
    requires Inv(r)
    ensures CanFinish(r)
    decreases Work(r), 1
  {
    if AllDone(r) {
      assert Runs(r, [], r);
    } else {
      var i :| 0 <= i < |r.loads| && !r.loads[i].stage.Done?;
      if r.loads[i].stage.Sleeping? {
        var d := Max(r.loads[i].stage.wake - r.now, 0);
        var later := Apply(r, Tick(d));
        StepKeepsInv(r, Tick(d));
        StepLessWork(r, Tick(d));
        FinishesWithStep(later, Wake(i));
        FinishesAfter(r, Tick(d));
      } else {
        SomeLoadSteps(r, i);
        var a :| Enabled(r, a) && StepOf(a).Some?;
        FinishesWithStep(r, a);
      }
    }
  }

  lemma {:induction false} FinishesWithStep(r: Run, a: Action)
    requires Inv(r) && Enabled(r, a) && StepOf(a).Some?
    ensures CanFinish(r)
    decreases Work(r), 0
  {
    StepKeepsInv(r, a);
    StepLessWork(r, a);
    EveryRunCanFinish(Apply(r, a));
    FinishesAfter(r, a);
  }
}
