/** A path's calls and retirements come to an end, and a Close that waits for retirements is
    never kept waiting by calls that come after it. */
module TunnelEnds {
  import opened Common
  import opened ProbePath

  // ----- What is left to do -----

  /** The steps until a thread has retired its tunnel, or the thread it starts has. */
  function RetireWork(t: Thread): nat {
    match t
    case HasSwapped(_, _) => 4
    case Retiring(_) => 3
    case RetireFailed(_) => 2
    case RetireEnding => 1
    case _ => 0
  }

  /** The steps a thread, and one it starts, can still take. */
  function ThreadWork(t: Thread): nat {
    match t
    case ReopenStart => 7
    case Opening => 6
    case HasOpened(_) => 5
    case LosingRace(_) => 1
    case CloseStart => 4
    case ClosingCurrent(_) => 3
    case AwaitRetired(_, _) => 2
    case ReadErrors(_, _) => 1
    case _ => RetireWork(t)
  }

  function Awaited(s: System): nat {
    Sum(s.threads, RetireWork)
  }

  lemma ThreadMovesOn(s: System, i: nat, ok: bool)
    requires CanStep(s, i)
    ensures var s', t := Stepped(s, i, ok), s.threads[i];
            && i < |s'.threads|
            && s'.threads == s.threads[i := s'.threads[i]] + Spawned(t)
            && ThreadWork(s'.threads[i]) + (if t.HasSwapped? then 3 else 0) < ThreadWork(t)
            && (IsRetiring(t) ==> RetireWork(s'.threads[i]) + (if t.HasSwapped? then 3 else 0) < RetireWork(t))
            && (s.fields.closed && !IsRetiring(t) ==> RetireWork(s'.threads[i]) == 0)
            && (s.fields.closed ==> s'.fields.closed)
  {
    OneThreadMoves(s, i, ok);
  }

  lemma ThreadComesCloser(s: System, i: nat, ok: bool)
    requires s.fields.closed && CanStep(s, i)
    ensures Stepped(s, i, ok).fields.closed
    ensures Awaited(Stepped(s, i, ok)) <= Awaited(s)
    ensures IsRetiring(s.threads[i]) ==> Awaited(Stepped(s, i, ok)) < Awaited(s)
  {
    var x := Stepped(s, i, ok).threads[i];
    ThreadMovesOn(s, i, ok);
    SumUpdate(s.threads, i, x, RetireWork);
    if s.threads[i].HasSwapped? {
      SumAppend(s.threads[i := x], Retiring(s.threads[i].retired), RetireWork);
    } else {
      assert s.threads[i := x] + [] == s.threads[i := x];
    }
  }

  /** Once the path is closed, what its Close waits for never grows, whatever is called or
      lost, and each step of a retirement takes some of it away. */
  lemma CloseComesCloser(s: System, a: Action)
    requires s.fields.closed && Enabled(s, a)
    ensures Apply(s, a).fields.closed
    ensures Awaited(Apply(s, a)) <= Awaited(s)
    ensures a.Step? && IsRetiring(s.threads[a.i]) ==> Awaited(Apply(s, a)) < Awaited(s)
  {
    match a
    case CallReopen => SumAppend(s.threads, ReopenStart, RetireWork);
    case CallClose => SumAppend(s.threads, CloseStart, RetireWork);
    case LoseTunnel(_) =>
    case Step(i, ok) => ThreadComesCloser(s, i, ok);
  }

  // ----- Bounds -----

  function StepsLeft(s: System): nat {
    Sum(s.threads, ThreadWork)
  }

  function Steps(actions: seq<Action>): nat {
    if actions == [] then 0 else (if actions[0].Step? then 1 else 0) + Steps(actions[1..])
  }

  /** The steps the calls made by the actions can take. */
  function Called(actions: seq<Action>): nat {
    if actions == [] then 0
    else (if actions[0].CallReopen? then 7 else if actions[0].CallClose? then 4 else 0) + Called(actions[1..])
  }

  lemma ThreadLess(s: System, i: nat, ok: bool)
    requires CanStep(s, i)
    ensures StepsLeft(Stepped(s, i, ok)) < StepsLeft(s)
  {
    var x := Stepped(s, i, ok).threads[i];
    ThreadMovesOn(s, i, ok);
    SumUpdate(s.threads, i, x, ThreadWork);
    if s.threads[i].HasSwapped? {
      SumAppend(s.threads[i := x], Retiring(s.threads[i].retired), ThreadWork);
    } else {
      assert s.threads[i := x] + [] == s.threads[i := x];
    }
  }

  /** A step of a thread leaves less to do; a call adds only its own steps, and those of the
      retirement it may start. */
  lemma StepLessWork(s: System, a: Action)
    requires Enabled(s, a)
    ensures Steps([a]) + StepsLeft(Apply(s, a)) <= StepsLeft(s) + Called([a])
  {
    match a
    case CallReopen => SumAppend(s.threads, ReopenStart, ThreadWork);
    case CallClose => SumAppend(s.threads, CloseStart, ThreadWork);
    case LoseTunnel(_) =>
    case Step(i, ok) => ThreadLess(s, i, ok);
  }

  /** In every interleaving each call of Reopen takes at most seven steps, its retirement's
      included, and each call of Close at most four. */
  lemma {:induction false} StepsAreBounded(s: System, actions: seq<Action>, s': System)
    requires Runs(s, actions, s')
    ensures Steps(actions) + StepsLeft(s') <= StepsLeft(s) + Called(actions)
    decreases |actions|
  {
    if actions != [] {
      StepLessWork(s, actions[0]);
      StepsAreBounded(Apply(s, actions[0]), actions[1..], s');
    }
  }

  // ----- They end -----

  predicate Over(t: Thread) {
    t.ReopenDone? || t.RetireDone? || t.CloseDone?
  }

  ghost predicate AllOver(s: System) {
    forall i :: 0 <= i < |s.threads| ==> Over(s.threads[i])
  }

  ghost predicate CanEnd(s: System) {
    exists actions, s' :: Runs(s, actions, s') && AllOver(s') && Called(actions) == 0
  }

  lemma SomeThreadSteps(s: System, i: nat) returns (j: nat)
    requires Inv(s) && i < |s.threads| && !Over(s.threads[i])
    ensures CanStep(s, j)
  {
    j := i;
    assert ThreadOk(s, i);
    CountPositive(s.threads, IsRetiring);
    if !CanStep(s, i) {
      j :| 0 <= j < |s.threads| && IsRetiring(s.threads[j]);
      assert ThreadOk(s, j);
    }
  }

  /** From every reachable state, and with no call made besides, every call and retirement
      can go on until it is over: no close waits for good. */
  lemma {:induction false} EveryCallCanEnd(s: System)
    requires Inv(s)
    ensures CanEnd(s)
    decreases StepsLeft(s)
  {
    if AllOver(s) {
      assert Runs(s, [], s);
    } else {
      var i :| 0 <= i < |s.threads| && !Over(s.threads[i]);
      var j := SomeThreadSteps(s, i);
      var a := Step(j, true);
      StepKeepsInv(s, a);
      StepLessWork(s, a);
      EveryCallCanEnd(Apply(s, a));
      var actions, s' :| Runs(Apply(s, a), actions, s') && AllOver(s') && Called(actions) == 0;
      assert ([a] + actions)[1..] == actions;
      assert Runs(s, [a] + actions, s');
    }
  }
}
