/** What an ended context, an ended pool or a signal that has fired keeps from happening: no
    check that it concerns starts any more, and the admission of jobs comes to a stop. */
module BatchStops {
  import opened Blackhole
  import opened Common

  /** A context, a pool or either signal can end or fire at any moment, and stays so. */
  lemma SignalsLand(s: System, b: nat, additional: bool)
    requires b < |s.batches|
    ensures Enabled(s, EndPool) && Apply(s, EndPool).poolEnded
    ensures Enabled(s, EndContext(b)) && Apply(s, EndContext(b)).batches[b].ended
    ensures Enabled(s, StopAdmission(b, additional))
    ensures Apply(s, StopAdmission(b, true)).batches[b] == s.batches[b].(additionalDone := true)
    ensures Apply(s, StopAdmission(b, false)).batches[b] == s.batches[b].(admissionDone := true)
  {
  }

  // ----- No check starts -----

  /** Job `k` of a batch whose context has ended is not begun, and never will be. */
  ghost predicate ShutByContext(x: Batch, k: nat) {
    k < |x.jobs| && x.ended && (x.jobs[k] == Unsent || x.jobs[k].Accepted? || x.jobs[k] == Skipped)
  }

  /** Job `k` of a batch that one of its signals has stopped, past its minimum, has not
      started, and never will. */
  ghost predicate ShutBySignal(x: Batch, k: nat) {
    && k < |x.jobs| && x.minimum <= k && (x.admissionDone || x.additionalDone)
    && !HasStarted(x.jobs[k])
  }

  /** A step in the body of the job itself. */
  lemma BodyStaysShut(s: System, w: nat, result: Result)
    requires Inv(s) && Enabled(s, Work(w, result)) && Body(s.workers[w]).Some?
    ensures var (b, k) := Body(s.workers[w]).value;
            && b < |s.batches| && b < |Worked(s, w, result).batches|
            && (ShutByContext(s.batches[b], k) ==> ShutByContext(Worked(s, w, result).batches[b], k))
            && (ShutBySignal(s.batches[b], k) ==> ShutBySignal(Worked(s, w, result).batches[b], k))
  {
    assert WorkerOk(s, w);
  }

  lemma BodyTouches(x: Batch, w: nat, worker: Worker, result: Result)
    requires Body(worker).Some? && Body(worker).value.1 < |x.jobs| == |x.results| == |x.runs|
    ensures var x', k := InBody(x, w, worker, result).0, Body(worker).value.1;
            SameLoop(x, x') && x'.jobs == x.jobs[k := x'.jobs[k]]
  {
  }

  ghost predicate SameLoop(x: Batch, x': Batch) {
    && x'.stage == x.stage && |x'.jobs| == |x.jobs| && x'.minimum == x.minimum
    && x'.ended == x.ended && x'.admissionDone == x.admissionDone && x'.additionalDone == x.additionalDone
  }

  /** What the body of a job leaves of any batch: its loop, its signals and the other jobs. */
  lemma WorkTouches(s: System, w: nat, result: Result, b: nat)
    requires Enabled(s, Work(w, result)) && b < |s.batches|
    ensures var s' := Worked(s, w, result);
            && |s'.batches| == |s.batches| && s'.poolEnded == s.poolEnded
            && SameLoop(s.batches[b], s'.batches[b])
            && forall n :: 0 <= n < |s.batches[b].jobs| && Body(s.workers[w]) != Some((b, n)) ==>
                 s'.batches[b].jobs[n] == s.batches[b].jobs[n]
  {
    if Body(s.workers[w]).Some? {
      BodyTouches(s.batches[Body(s.workers[w]).value.0], w, s.workers[w], result);
    }
  }

  lemma HandStaysShut(x: Batch, w: nat, k: nat)
    requires x.stage.Sending? && x.stage.k < |x.jobs|
    ensures ShutByContext(x, k) ==> ShutByContext(Handed(x, w), k)
    ensures ShutBySignal(x, k) ==> ShutBySignal(Handed(x, w), k)
  {
  }

  lemma AdmitStaysShut(x: Batch, poolEnded: bool, k: nat)
    ensures ShutByContext(x, k) ==> ShutByContext(Admitted(x, poolEnded), k)
    ensures ShutBySignal(x, k) ==> ShutBySignal(Admitted(x, poolEnded), k)
  {
  }

  lemma StepStaysShut(s: System, a: Action, b: nat, k: nat)
    requires Inv(s) && Enabled(s, a) && b < |s.batches|
    ensures b < |Apply(s, a).batches|
    ensures ShutByContext(s.batches[b], k) ==> ShutByContext(Apply(s, a).batches[b], k)
    ensures ShutBySignal(s.batches[b], k) ==> ShutBySignal(Apply(s, a).batches[b], k)
  {
    match a
    case Hand(c, w) => HandStaysShut(s.batches[c], w, k);
    case Admit(c) => AdmitStaysShut(s.batches[c], s.poolEnded, k);
    case Work(w, result) =>
      if Body(s.workers[w]) == Some((b, k)) {
        BodyStaysShut(s, w, result);
      } else {
        WorkTouches(s, w, result, b);
      }
    case _ =>
  }

  lemma {:induction false} RunStaysShut(s: System, actions: seq<Action>, s': System, b: nat, k: nat)
    requires Inv(s) && Runs(s, actions, s') && b < |s.batches|
    ensures b < |s'.batches|
    ensures ShutByContext(s.batches[b], k) ==> ShutByContext(s'.batches[b], k)
    ensures ShutBySignal(s.batches[b], k) ==> ShutBySignal(s'.batches[b], k)
    decreases |actions|
  {
    if actions != [] {
      StepKeepsInv(s, actions[0]);
      StepStaysShut(s, actions[0], b, k);
      RunStaysShut(Apply(s, actions[0]), actions[1..], s', b, k);
    }
  }

  /** Once a batch's context has ended, no job that no worker has begun ever starts a check,
      handed over already or not. */
  lemma EndedStartsNothing(s: System, actions: seq<Action>, s': System, b: nat, k: nat)
    requires Inv(s) && Runs(s, actions, s') && b < |s.batches| && s.batches[b].ended
    requires k < |s.batches[b].jobs| && (s.batches[b].jobs[k].Unsent? || s.batches[b].jobs[k].Accepted?)
    ensures b < |s'.batches| && k < |s'.batches[b].jobs| && !HasStarted(s'.batches[b].jobs[k])
  {
    RunStaysShut(s, actions, s', b, k);
  }

  /** Once either signal has fired, no check past the minimum that has not started ever does,
      even one a worker has begun. */
  lemma StoppedStartsNothing(s: System, actions: seq<Action>, s': System, b: nat, k: nat)
    requires Inv(s) && Runs(s, actions, s') && b < |s.batches|
    requires s.batches[b].admissionDone || s.batches[b].additionalDone
    requires s.batches[b].minimum <= k < |s.batches[b].jobs| && !HasStarted(s.batches[b].jobs[k])
    ensures b < |s'.batches| && k < |s'.batches[b].jobs| && !HasStarted(s'.batches[b].jobs[k])
  {
    RunStaysShut(s, actions, s', b, k);
  }

  // ----- Admission stops -----

  /** The jobs a batch has had accepted, and the one it may still offer although its context
      or its pool has ended. */
  function AtMostEnded(x: Batch): nat {
    x.stage.k + if x.stage.Submitting? || x.stage.Sending? then 1 else 0
  }

  /** And the one it may still offer although a signal has stopped it. */
  function AtMostStopped(x: Batch): nat {
    x.stage.k + if x.stage.Sending? then 1 else 0
  }

  /** The batch is past its minimum, and one of its signals has fired. */
  predicate PastMinimum(x: Batch) {
    x.minimum <= x.stage.k && (x.admissionDone || x.additionalDone)
  }

  /** A loop that its context, its pool or a signal has stopped needs no worker to get to its
      join, and goes there from wherever it is; the next check of what stopped it sends it. */
  lemma StoppedLoopLeaves(s: System, b: nat)
    requires Inv(s) && b < |s.batches| && !s.batches[b].stage.Joining? && !s.batches[b].stage.Returned?
    requires s.batches[b].ended || s.poolEnded || PastMinimum(s.batches[b])
    ensures Enabled(s, Admit(b))
    ensures var x, next := s.batches[b], Apply(s, Admit(b)).batches[b].stage;
            && (x.ended && x.stage.Looping? ==> next.Joining?)
            && (PastMinimum(x) && (x.stage.Looking? || x.stage.Looping?) ==> next.Looking? || next.Joining?)
            && (PastMinimum(x) && x.stage.Looking? ==> next.Joining?)
            && ((x.ended || s.poolEnded) && x.stage.Entering? ==> next.Refused?)
            && (PastMinimum(x) && x.stage.Submitting? ==> next.Refused?)
            && (x.stage.Sending? ==> next.Refused?)
            && (x.stage.Refused? ==> next.Joining? && Apply(s, Admit(b)).batches[b].group == x.group - 1)
  {
    var x := s.batches[b];
    assert BatchOk(x, s.poolEnded);
  }

  /** Once the pool has ended, a worker between jobs takes no other. */
  lemma {:induction false} EndedPoolTakesNothing(s: System, actions: seq<Action>, s': System, w: nat)
    requires Runs(s, actions, s') && s.poolEnded && w < |s.workers| && (s.workers[w].Top? || s.workers[w].Gone?)
    ensures s'.poolEnded && w < |s'.workers| && (s'.workers[w].Top? || s'.workers[w].Gone?)
    decreases |actions|
  {
    if actions != [] {
      EndedPoolTakesNothing(Apply(s, actions[0]), actions[1..], s', w);
    }
  }

  lemma LoopAdmitsNoMore(x: Batch, poolEnded: bool)
    ensures x.ended || poolEnded ==> AtMostEnded(Admitted(x, poolEnded)) <= AtMostEnded(x)
    ensures PastMinimum(x) ==>
              PastMinimum(Admitted(x, poolEnded)) && AtMostStopped(Admitted(x, poolEnded)) <= AtMostStopped(x)
  {
  }

  lemma HandAdmitsNoMore(x: Batch, w: nat)
    requires x.stage.Sending? && x.stage.k < |x.jobs|
    ensures AtMostEnded(Handed(x, w)) <= AtMostEnded(x) && AtMostStopped(Handed(x, w)) <= AtMostStopped(x)
    ensures PastMinimum(x) ==> PastMinimum(Handed(x, w))
  {
  }

  lemma StepAdmitsNoMore(s: System, a: Action, b: nat)
    requires Inv(s) && Enabled(s, a) && b < |s.batches|
    ensures b < |Apply(s, a).batches|
    ensures (s.batches[b].ended || s.poolEnded) ==>
              && (Apply(s, a).batches[b].ended || Apply(s, a).poolEnded)
              && AtMostEnded(Apply(s, a).batches[b]) <= AtMostEnded(s.batches[b])
    ensures PastMinimum(s.batches[b]) ==>
              && PastMinimum(Apply(s, a).batches[b])
              && AtMostStopped(Apply(s, a).batches[b]) <= AtMostStopped(s.batches[b])
  {
    match a
    case Hand(c, w) => HandAdmitsNoMore(s.batches[c], w);
    case Admit(c) => LoopAdmitsNoMore(s.batches[c], s.poolEnded);
    case Work(w, result) => WorkTouches(s, w, result, b);
    case _ =>
  }

  /** Once its context or its pool has ended, a batch has at most one more job accepted, the
      one it was offering; and once a signal has fired past its minimum, at most the one it
      was already handing over. */
  lemma {:induction false} AdmissionStops(s: System, actions: seq<Action>, s': System, b: nat)
    requires Inv(s) && Runs(s, actions, s') && b < |s.batches|
    ensures b < |s'.batches|
    ensures s.batches[b].ended || s.poolEnded ==> AtMostEnded(s'.batches[b]) <= AtMostEnded(s.batches[b])
    ensures PastMinimum(s.batches[b]) ==> AtMostStopped(s'.batches[b]) <= AtMostStopped(s.batches[b])
    decreases |actions|
  {
    if actions != [] {
      StepKeepsInv(s, actions[0]);
      StepAdmitsNoMore(s, actions[0], b);
      AdmissionStops(Apply(s, actions[0]), actions[1..], s', b);
    }
  }
}
