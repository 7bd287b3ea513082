/** Batches come to an end: the loops and the workers of a pool take only so many steps
    between them, and from wherever a batch has got to it can go on until it returns. */
module BatchEnds {
  import opened Blackhole
  import opened Common

  // ----- What is left to do -----

  function StageWork(stage: Stage): nat {
    match stage
    case Looping(_) => 7
    case Looking(_) => 6
    case Entering(_) => 5
    case Submitting(_) => 4
    case Sending(_) => 3
    case Refused(_) => 2
    case Joining(_) => 1
    case Returned(_) => 0
  }

  /** The steps a batch can still take or hand to a worker. */
  function BatchWork(x: Batch): nat {
    (if x.stage.k <= |x.jobs| then 10 * (|x.jobs| - x.stage.k) else 0) + StageWork(x.stage)
  }

  /** The steps a worker can still take before it is handed another job. */
  function WorkerWork(w: Worker): nat {
    match w
    case Beginning(_, _) => 6
    case Admitting(_, _) => 5
    case Checking(_, _) => 4
    case Ending(_, _, _) => 3
    case Top => 2
    case Waiting => 1
    case Gone => 0
  }

  function StepsLeft(s: System): nat {
    Sum(s.batches, BatchWork) + Sum(s.workers, WorkerWork)
  }

  /** A step of a loop or a worker, not of the environment. */
  predicate IsStep(a: Action) {
    a.Admit? || a.Hand? || a.Work?
  }

  // ----- Every such step takes some of it away -----

  lemma LoopLess(x: Batch, poolEnded: bool)
    requires x.stage.k <= |x.jobs| && CanAdmit(x, poolEnded)
    ensures BatchWork(Admitted(x, poolEnded)) < BatchWork(x)
  {
  }

  lemma AdmitLess(s: System, b: nat)
    requires Inv(s) && Enabled(s, Admit(b))
    ensures StepsLeft(Apply(s, Admit(b))) < StepsLeft(s)
  {
    assert BatchOk(s.batches[b], s.poolEnded);
    LoopLess(s.batches[b], s.poolEnded);
    SumUpdate(s.batches, b, Admitted(s.batches[b], s.poolEnded), BatchWork);
  }

  lemma HandLess(s: System, b: nat, w: nat)
    requires Inv(s) && Enabled(s, Hand(b, w))
    ensures StepsLeft(Apply(s, Hand(b, w))) < StepsLeft(s)
  {
    SumUpdate(s.batches, b, Handed(s.batches[b], w), BatchWork);
    SumUpdate(s.workers, w, Beginning(b, s.batches[b].stage.k), WorkerWork);
  }

  /** In a job's body a worker moves on, and leaves its batch's loop where it is. */
  lemma BodyMovesOn(s: System, w: nat, result: Result)
    requires Enabled(s, Work(w, result)) && Body(s.workers[w]).Some?
    ensures var b, s' := Body(s.workers[w]).value.0, Worked(s, w, result);
            && s'.batches == s.batches[b := s'.batches[b]] && s'.workers == s.workers[w := s'.workers[w]]
            && s'.batches[b].stage == s.batches[b].stage && |s'.batches[b].jobs| == |s.batches[b].jobs|
            && WorkerWork(s'.workers[w]) < WorkerWork(s.workers[w])
  {
  }

  lemma BodyLess(s: System, w: nat, result: Result)
    requires Enabled(s, Work(w, result)) && Body(s.workers[w]).Some?
    ensures StepsLeft(Worked(s, w, result)) < StepsLeft(s)
  {
    var b, s' := Body(s.workers[w]).value.0, Worked(s, w, result);
    BodyMovesOn(s, w, result);
    assert BatchWork(s'.batches[b]) == BatchWork(s.batches[b]);
    SumUpdate(s.batches, b, s'.batches[b], BatchWork);
    SumUpdate(s.workers, w, s'.workers[w], WorkerWork);
  }

  lemma WorkLess(s: System, w: nat, result: Result)
    requires Inv(s) && Enabled(s, Work(w, result))
    ensures StepsLeft(Worked(s, w, result)) < StepsLeft(s)
  {
    if Body(s.workers[w]).Some? {
      BodyLess(s, w, result);
    } else {
      SumUpdate(s.workers, w, Worked(s, w, result).workers[w], WorkerWork);
    }
  }

  /** Each step of a loop or a worker leaves less to do, and no signal leaves more, however
      many batches share the pool. */
  lemma StepLessWork(s: System, a: Action)
    requires Inv(s) && Enabled(s, a)
    ensures IsStep(a) ==> StepsLeft(Apply(s, a)) < StepsLeft(s)
    ensures !IsStep(a) ==> StepsLeft(Apply(s, a)) == StepsLeft(s)
  {
    match a
    case Admit(b) => AdmitLess(s, b);
    case Hand(b, w) => HandLess(s, b, w);
    case Work(w, result) => WorkLess(s, w, result);
    case EndPool =>
    case EndContext(b) => SumUpdate(s.batches, b, Apply(s, a).batches[b], BatchWork);
    case StopAdmission(b, _) => SumUpdate(s.batches, b, Apply(s, a).batches[b], BatchWork);
  }

  // ----- Batches end -----

  function Steps(actions: seq<Action>): nat {
    if actions == [] then 0 else (if IsStep(actions[0]) then 1 else 0) + Steps(actions[1..])
  }

  /** However the batches and the workers interleave, they take no more steps between them
      than were left to do. */
  lemma {:induction false} StepsAreBounded(s: System, actions: seq<Action>, s': System)
    requires Inv(s) && Runs(s, actions, s')
    ensures Steps(actions) + StepsLeft(s') <= StepsLeft(s)
    decreases |actions|
  {
    if actions != [] {
      StepKeepsInv(s, actions[0]);
      StepLessWork(s, actions[0]);
      StepsAreBounded(Apply(s, actions[0]), actions[1..], s');
    }
  }

  function Providers(x: Batch): nat {
    |x.jobs|
  }

  lemma {:induction false} FreshWork(batches: seq<Batch>)
    requires forall b :: 0 <= b < |batches| ==> Fresh(batches[b])
    ensures Sum(batches, BatchWork) == 10 * Sum(batches, Providers) + 7 * |batches|
  {
    if batches != [] {
      FreshWork(batches[..|batches| - 1]);
    }
  }

  lemma {:induction false} TopWork(workers: seq<Worker>)
    requires forall w :: 0 <= w < |workers| ==> workers[w] == Top
    ensures Sum(workers, WorkerWork) == 2 * |workers|
  {
    if workers != [] {
      TopWork(workers[..|workers| - 1]);
    }
  }

  /** From the start there are at most ten steps a provider, seven a batch and two a
      worker. */
  lemma PoolIsBounded(s0: System, actions: seq<Action>, s: System)
    requires Initial(s0) && Runs(s0, actions, s)
    ensures Steps(actions) <= 10 * Sum(s0.batches, Providers) + 7 * |s0.batches| + 2 * |s0.workers|
  {
    assert Runs(s0, [], s0);
    ReachableInv(s0);
    StepsAreBounded(s0, actions, s);
    FreshWork(s0.batches);
    TopWork(s0.workers);
  }

  ghost predicate CanReturn(s: System, b: nat) {
    exists actions, s' :: Runs(s, actions, s') && b < |s'.batches| && s'.batches[b].stage.Returned?
  }

  /** From every reachable state each batch can go on until it returns, its pool ended or
      not: with the bound on the steps, the call that runs it comes to an end. */
  lemma {:induction false} EveryBatchCanReturn(s: System, b: nat)
    requires Inv(s) && b < |s.batches| && 0 < |s.workers|
    ensures CanReturn(s, b)
    decreases StepsLeft(s)
  {
    if s.batches[b].stage.Returned? {
      assert Runs(s, [], s);
    } else {
      BatchNeverStuck(s, b);
      var a :| Enabled(s, a) && IsStep(a);
      StepKeepsInv(s, a);
      StepLessWork(s, a);
      EveryBatchCanReturn(Apply(s, a), b);
      var actions, s' :| Runs(Apply(s, a), actions, s') && b < |s'.batches| && s'.batches[b].stage.Returned?;
      assert ([a] + actions)[1..] == actions;
      assert Runs(s, [a] + actions, s');
    }
  }
}
