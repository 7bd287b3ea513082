/** A pass comes to an end: its loop and its probes take at most eight steps a provider and
    three besides, and from wherever it has got to it can go on until it returns. */
module PassEnds {
  import opened Common
  import opened Scheduler

  /** The steps a probe can still take. */
  function ProbeWork(x: Probe): nat {
    match x.step
    case Spawned => 6
    case Probing => 5
    case Tallying => 4
    case Marking => 3
    case Releasing => 2
    case Leaving => 1
    case Gone => 0
  }

  /** The steps the loop can still take, and the probes it can still start. */
  function LoopWork(p: Pass): nat {
    match p.stage
    case Starting => 8 * |p.providers| + 3
    case Looping(i) => 8 * (if i <= |p.providers| then |p.providers| - i else 0) + 2
    case Acquiring(i) => 8 * (if i <= |p.providers| then |p.providers| - i else 0) + 1
    case Joining => 1
    case Returned => 0
  }

  function StepsLeft(p: Pass): nat {
    LoopWork(p) + Sum(p.probes, ProbeWork)
  }

  /** A step of the loop or a probe, not of the environment. */
  predicate IsStep(a: Action) {
    a.Loop? || a.Cancel? || a.Advance?
  }

  lemma LoopLess(p: Pass)
    requires Inv(p) && Enabled(p, Loop)
    ensures StepsLeft(Looped(p)) < StepsLeft(p)
  {
    if p.stage.Acquiring? {
      SumAppend(p.probes, Probe(p.providers[p.stage.i], Spawned, Unknown), ProbeWork);
    }
  }

  lemma ProbeMovesOn(p: Pass, n: nat, outcome: Outcome)
    requires Enabled(p, Advance(n, outcome))
    ensures var p' := Advanced(p, n, outcome);
            && LoopWork(p') == LoopWork(p) && |p'.probes| == |p.probes|
            && p'.probes == p.probes[n := p'.probes[n]] && ProbeWork(p'.probes[n]) < ProbeWork(p.probes[n])
  {
  }

  lemma ProbeLess(p: Pass, n: nat, outcome: Outcome)
    requires Enabled(p, Advance(n, outcome))
    ensures StepsLeft(Advanced(p, n, outcome)) < StepsLeft(p)
  {
    ProbeMovesOn(p, n, outcome);
    SumUpdate(p.probes, n, Advanced(p, n, outcome).probes[n], ProbeWork);
  }

  /** Each step of the loop or a probe leaves less to do, and the clock and the context leave
      no more. */
  lemma StepLessWork(p: Pass, a: Action)
    requires Inv(p) && Enabled(p, a)
    ensures IsStep(a) ==> StepsLeft(Apply(p, a)) < StepsLeft(p)
    ensures !IsStep(a) ==> StepsLeft(Apply(p, a)) == StepsLeft(p)
  {
    match a
    case Loop => LoopLess(p);
    case Advance(n, outcome) => ProbeLess(p, n, outcome);
    case _ =>
  }

  function Steps(actions: seq<Action>): nat {
    if actions == [] then 0 else (if IsStep(actions[0]) then 1 else 0) + Steps(actions[1..])
  }

  lemma {:induction false} StepsAreBounded(p: Pass, actions: seq<Action>, p': Pass)
    requires Inv(p) && Runs(p, actions, p')
    ensures Steps(actions) + StepsLeft(p') <= StepsLeft(p)
    decreases |actions|
  {
    if actions != [] {
      StepKeepsInv(p, actions[0]);
      StepLessWork(p, actions[0]);
      StepsAreBounded(Apply(p, actions[0]), actions[1..], p');
    }
  }

  /** However the loop and the probes interleave, and whenever the context ends, a pass takes
      at most eight steps a provider and three besides. */
  lemma PassIsBounded(p0: Pass, actions: seq<Action>, p: Pass)
    requires Initial(p0) && Runs(p0, actions, p)
    ensures Steps(actions) <= 8 * |p0.providers| + 3
  {
    assert Runs(p0, [], p0);
    ReachableInv(p0);
    StepsAreBounded(p0, actions, p);
  }

  ghost predicate CanReturn(p: Pass) {
    exists actions, p' :: Runs(p, actions, p') && p'.stage.Returned?
  }

  /** From every reachable state the pass can go on until it returns: with the bound on its
      steps, it comes to an end. */
  lemma {:induction false} EveryPassCanReturn(p: Pass)
    requires Inv(p)
    ensures CanReturn(p)
    decreases StepsLeft(p)
  {
    if p.stage.Returned? {
      assert Runs(p, [], p);
    } else {
      PassNeverStuck(p);
      var a :| Enabled(p, a) && IsStep(a);
      StepKeepsInv(p, a);
      StepLessWork(p, a);
      EveryPassCanReturn(Apply(p, a));
      var actions, p' :| Runs(Apply(p, a), actions, p') && p'.stage.Returned?;
      assert ([a] + actions)[1..] == actions;
      assert Runs(p, [a] + actions, p');
    }
  }
}
