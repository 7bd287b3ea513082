/** Batches of reachability checks that share a fixed set of workers.

    Batches admit their providers in order and hand each check to a free worker over an
    unbuffered channel, so a hand-over is one step of both.  The batch's context, the
    pool's and the two admission signals can end at any moment, and what was read of them
    can be out of date by the time it is acted on. */
module Blackhole {
  import opened Common

  /** What a check came to.  An empty client id is no result. */
  datatype Result = Result(clientId: string, dark: bool, tunnelFailed: bool, notMeasured: bool)

  const NO_RESULT := Result("", false, false, false)

  /** What became of one provider's check: handed to a worker, in its body, or started
      there, until it comes to an end. */
  datatype Job =
    | Unsent
    | Accepted(worker: nat)
    | Entered(worker: nat)
    | Started(worker: nat)
    | Skipped
    | Canceled
    | Discarded
    | Completed

  /** Where a batch's admission loop is, having had `k` jobs accepted. */
  datatype Stage =
    | Looping(k: nat)
    | Looking(k: nat)
    | Entering(k: nat)
    | Submitting(k: nat)
    | Sending(k: nat)
    | Refused(k: nat)
    | Joining(k: nat)
    | Returned(k: nat)

  /** One batch.  `group` is its wait group, `runs` how often each job's body has run, and
      the last four count the progress events it has reported. */
  datatype Batch = Batch(minimum: nat, ended: bool, admissionDone: bool, additionalDone: bool, stage: Stage,
                         group: nat, jobs: seq<Job>, runs: seq<nat>, results: seq<Result>,
                         started: nat, completed: nat, canceled: nat, discarded: nat)

  /** Where a worker is: between jobs, or in the body of job `k` of batch `b`. */
  datatype Worker =
    | Top
    | Waiting
    | Beginning(b: nat, k: nat)
    | Admitting(b: nat, k: nat)
    | Checking(b: nat, k: nat)
    | Ending(b: nat, k: nat, result: Result)
    | Gone

  datatype System = System(poolEnded: bool, workers: seq<Worker>, batches: seq<Batch>)

  datatype Action =
    | EndPool
    | EndContext(b: nat)
    | StopAdmission(b: nat, additional: bool)
    | Admit(b: nat)
    | Hand(b: nat, w: nat)
    | Work(w: nat, result: Result)

  /** Both signals are ignored for the first `minimum` providers. */
  predicate Stopped(x: Batch, k: nat) {
    x.minimum <= k && (x.admissionDone || x.additionalDone)
  }

  function Body(w: Worker): Option<(nat, nat)> {
    match w
    case Beginning(b, k) => Some((b, k))
    case Admitting(b, k) => Some((b, k))
    case Checking(b, k) => Some((b, k))
    case Ending(b, k, _) => Some((b, k))
    case _ => None
  }

  /** The admission loop can go on by itself: it need not wait for a worker, or for the
      jobs it has to join. */
  predicate CanAdmit(x: Batch, poolEnded: bool) {
    match x.stage
    case Sending(k) => x.ended || poolEnded || Stopped(x, k)
    case Refused(_) => 0 < x.group
    case Joining(_) => x.group == 0
    case Returned(_) => false
    case _ => true
  }

  predicate CanWork(s: System, w: Worker) {
    match w
    case Top => true
    case Waiting => s.poolEnded
    case Gone => false
    case _ =>
      var (b, k) := Body(w).value;
      && b < |s.batches| && 0 < s.batches[b].group
      && k < |s.batches[b].jobs| == |s.batches[b].results| == |s.batches[b].runs|
  }

  predicate Enabled(s: System, a: Action) {
    match a
    case EndPool => true
    case EndContext(b) => b < |s.batches|
    case StopAdmission(b, _) => b < |s.batches|
    case Admit(b) =>
      && b < |s.batches|
      && CanAdmit(s.batches[b], s.poolEnded)
    case Hand(b, w) =>
      && b < |s.batches| && s.batches[b].stage.Sending? && w < |s.workers| && s.workers[w] == Waiting
      && s.batches[b].stage.k < |s.batches[b].jobs|
    case Work(w, _) =>
      w < |s.workers| && CanWork(s, s.workers[w])
  }

  /** The admission loop's next step, the hand-over apart. */
  function Admitted(x: Batch, poolEnded: bool): Batch {
    match x.stage
    case Looping(k) => x.(stage := if k == |x.jobs| || x.ended then Joining(k) else Looking(k))
    case Looking(k) => if Stopped(x, k) then x.(stage := Joining(k)) else x.(stage := Entering(k), group := x.group + 1)
    case Entering(k) => x.(stage := if x.ended || poolEnded then Refused(k) else Submitting(k))
    case Submitting(k) => x.(stage := if Stopped(x, k) then Refused(k) else Sending(k))
    case Sending(k) => x.(stage := Refused(k))
    case Refused(k) => x.(stage := Joining(k), group := if 0 < x.group then x.group - 1 else 0)
    case Joining(k) => x.(stage := Returned(k))
    case Returned(_) => x
  }

  function Handed(x: Batch, w: nat): Batch
    requires x.stage.Sending? && x.stage.k < |x.jobs|
  {
    var k := x.stage.k;
    x.(stage := Looping(k + 1), jobs := x.jobs[k := Accepted(w)])
  }

  /** A worker begins the body of a job handed to it. */
  function Begun(x: Batch, k: nat, w: nat): Batch
    requires k < |x.jobs| == |x.runs|
  {
    x.(jobs := x.jobs[k := Entered(w)], runs := x.runs[k := x.runs[k] + 1])
  }

  function CheckStarts(x: Batch, k: nat, w: nat): Batch
    requires k < |x.jobs|
  {
    x.(jobs := x.jobs[k := Started(w)], started := x.started + 1)
  }

  /** A job comes to its end, and leaves its batch's wait group. */
  function Left(x: Batch, k: nat, job: Job): Batch
    requires k < |x.jobs|
  {
    x.(jobs := x.jobs[k := job], group := if 0 < x.group then x.group - 1 else 0)
  }

  /** A check has come back: a result that arrives with its context ended is dropped. */
  function Concluded(x: Batch, k: nat, result: Result): Batch
    requires k < |x.jobs| == |x.results|
  {
    if x.ended then Left(x, k, Canceled).(canceled := x.canceled + 1)
    else if result.clientId == "" then
      Left(x, k, Discarded).(discarded := x.discarded + 1, results := x.results[k := result])
    else
      Left(x, k, Completed).(completed := x.completed + 1, results := x.results[k := result])
  }

  function WithBatch(s: System, b: nat, x: Batch): System
    requires b < |s.batches|
  {
    s.(batches := s.batches[b := x])
  }

  function WithWorker(s: System, w: nat, worker: Worker): System
    requires w < |s.workers|
  {
    s.(workers := s.workers[w := worker])
  }

  /** What a worker's next step in the body of a job makes of its batch and of itself. */
  function InBody(x: Batch, w: nat, worker: Worker, result: Result): (Batch, Worker)
    requires Body(worker).Some? && Body(worker).value.1 < |x.jobs| == |x.results| == |x.runs|
  {
    match worker
    case Beginning(b, k) =>
      var begun := Begun(x, k, w);
      if begun.ended then (Left(begun, k, Skipped), Top) else (begun, Admitting(b, k))
    case Admitting(b, k) =>
      if Stopped(x, k) then (Left(x, k, Skipped), Top) else (CheckStarts(x, k, w), Checking(b, k))
    case Checking(b, k) => (x, Ending(b, k, result))
    case Ending(b, k, r) => (Concluded(x, k, r), Top)
  }

  function Worked(s: System, w: nat, result: Result): System
    requires Enabled(s, Work(w, result))
  {
    match s.workers[w]
    case Top => WithWorker(s, w, if s.poolEnded then Gone else Waiting)
    case Waiting => WithWorker(s, w, Gone)
    case _ =>
      var b := Body(s.workers[w]).value.0;
      var (x, worker) := InBody(s.batches[b], w, s.workers[w], result);
      WithWorker(WithBatch(s, b, x), w, worker)
  }

  function Apply(s: System, a: Action): System
    requires Enabled(s, a)
  {
    match a
    case EndPool => s.(poolEnded := true)
    case EndContext(b) => WithBatch(s, b, s.batches[b].(ended := true))
    case StopAdmission(b, additional) =>
      var x := s.batches[b];
      WithBatch(s, b, if additional then x.(additionalDone := true) else x.(admissionDone := true))
    case Admit(b) => WithBatch(s, b, Admitted(s.batches[b], s.poolEnded))
    case Hand(b, w) =>
      WithWorker(WithBatch(s, b, Handed(s.batches[b], w)), w, Beginning(b, s.batches[b].stage.k))
    case Work(w, result) => Worked(s, w, result)
  }

  ghost predicate Fresh(x: Batch) {
    && x.stage == Looping(0) && x.group == 0
    && |x.runs| == |x.jobs| == |x.results|
    && (forall k :: 0 <= k < |x.jobs| ==> x.jobs[k] == Unsent && x.runs[k] == 0 && x.results[k] == NO_RESULT)
    && x.started == x.completed == x.canceled == x.discarded == 0
  }

  /** The pool's workers have been started, and no batch has admitted anything; signals
      may have ended already. */
  ghost predicate Initial(s: System) {
    && (forall w :: 0 <= w < |s.workers| ==> s.workers[w] == Top)
    && (forall b :: 0 <= b < |s.batches| ==> Fresh(s.batches[b]))
  }

  ghost predicate Runs(s: System, actions: seq<Action>, s': System)
    decreases |actions|
  {
    if actions == [] then s' == s
    else Enabled(s, actions[0]) && Runs(Apply(s, actions[0]), actions[1..], s')
  }

  ghost predicate Reachable(s: System) {
    exists s0, actions :: Initial(s0) && Runs(s0, actions, s)
  }

  // ----- What every step keeps -----

  predicate InFlight(j: Job) { j.Accepted? || j.Entered? || j.Started? }
  predicate HasStarted(j: Job) { j.Started? || j.Canceled? || j.Discarded? || j.Completed? }
  predicate IsStarted(j: Job) { j.Started? }
  predicate IsCompleted(j: Job) { j.Completed? }
  predicate IsCanceled(j: Job) { j.Canceled? }
  predicate IsDiscarded(j: Job) { j.Discarded? }

  /** The admission loop has entered the wait group for a job it has yet to hand over. */
  function Pending(stage: Stage): nat {
    if stage.Entering? || stage.Submitting? || stage.Sending? || stage.Refused? then 1 else 0
  }

  /** The counters of a batch agree with what has become of its jobs. */
  ghost predicate Tallied(x: Batch) {
    && x.group == Count(x.jobs, InFlight) + Pending(x.stage)
    && x.started == Count(x.jobs, HasStarted)
    && x.completed == Count(x.jobs, IsCompleted)
    && x.canceled == Count(x.jobs, IsCanceled)
    && x.discarded == Count(x.jobs, IsDiscarded)
  }

  ghost predicate JobOk(x: Batch, k: nat)
    requires k < |x.jobs| == |x.runs| == |x.results|
  {
    && (x.jobs[k] == Unsent <==> x.stage.k <= k)
    && x.runs[k] == (if x.jobs[k] == Unsent || x.jobs[k].Accepted? then 0 else 1)
    && (x.results[k].clientId != "" <==> x.jobs[k] == Completed)
    && (x.jobs[k] == Canceled ==> x.ended)
    && (x.jobs[k] == Skipped ==> x.ended || (x.minimum <= k && (x.admissionDone || x.additionalDone)))
  }

  ghost predicate BatchOk(x: Batch, poolEnded: bool) {
    && |x.jobs| == |x.runs| == |x.results|
    && x.stage.k <= |x.jobs| && (Pending(x.stage) == 1 || x.stage.Looking? ==> x.stage.k < |x.jobs|)
    && (x.stage.Refused? || x.stage.Joining? || x.stage.Returned? ==>
          || x.stage.k == |x.jobs| || x.ended || poolEnded
          || (x.minimum <= x.stage.k && (x.admissionDone || x.additionalDone)))
    && (x.stage.Returned? ==> x.group == 0)
    && Tallied(x)
    && forall k :: 0 <= k < |x.jobs| ==> JobOk(x, k)
  }

  /** A worker in a job's body is the one that job was handed to. */
  ghost predicate WorkerOk(s: System, w: nat)
    requires w < |s.workers|
  {
    && (s.workers[w] == Gone ==> s.poolEnded)
    && (Body(s.workers[w]).Some? ==>
          var (b, k) := Body(s.workers[w]).value;
          && b < |s.batches| && k < |s.batches[b].jobs|
          && s.batches[b].jobs[k] ==
               if s.workers[w].Beginning? then Accepted(w)
               else if s.workers[w].Admitting? then Entered(w) else Started(w))
  }

  /** A job in flight is in the body of the worker it was handed to. */
  ghost predicate Held(s: System, b: nat, k: nat)
    requires b < |s.batches| && k < |s.batches[b].jobs|
  {
    InFlight(s.batches[b].jobs[k]) ==>
      s.batches[b].jobs[k].worker < |s.workers| && Body(s.workers[s.batches[b].jobs[k].worker]) == Some((b, k))
  }

  ghost predicate Inv(s: System) {
    && (forall b :: 0 <= b < |s.batches| ==> BatchOk(s.batches[b], s.poolEnded))
    && (forall w :: 0 <= w < |s.workers| ==> WorkerOk(s, w))
    && (forall b, k :: 0 <= b < |s.batches| && 0 <= k < |s.batches[b].jobs| ==> Held(s, b, k))
  }

  // ----- One batch's steps -----

  lemma CountJob(jobs: seq<Job>, k: nat, job: Job)
    requires k < |jobs|
    ensures var jobs', was := jobs[k := job], jobs[k];
            && Count(jobs', InFlight) + (if InFlight(was) then 1 else 0) ==
              Count(jobs, InFlight) + (if InFlight(job) then 1 else 0)
            && Count(jobs', HasStarted) + (if HasStarted(was) then 1 else 0) ==
              Count(jobs, HasStarted) + (if HasStarted(job) then 1 else 0)
            && Count(jobs', IsCompleted) + (if IsCompleted(was) then 1 else 0) ==
              Count(jobs, IsCompleted) + (if IsCompleted(job) then 1 else 0)
            && Count(jobs', IsCanceled) + (if IsCanceled(was) then 1 else 0) ==
              Count(jobs, IsCanceled) + (if IsCanceled(job) then 1 else 0)
            && Count(jobs', IsDiscarded) + (if IsDiscarded(was) then 1 else 0) ==
              Count(jobs, IsDiscarded) + (if IsDiscarded(job) then 1 else 0)
  {
    CountUpdate(jobs, k, job, InFlight);
    CountUpdate(jobs, k, job, HasStarted);
    CountUpdate(jobs, k, job, IsCompleted);
    CountUpdate(jobs, k, job, IsCanceled);
    CountUpdate(jobs, k, job, IsDiscarded);
  }

  lemma JobsKept(x: Batch, x': Batch)
    requires |x.jobs| == |x.runs| == |x.results|
    requires x'.jobs == x.jobs && x'.runs == x.runs && x'.results == x.results
    requires x'.stage.k == x.stage.k && x'.minimum == x.minimum && (x.ended ==> x'.ended)
    requires x.admissionDone || x.additionalDone ==> x'.admissionDone || x'.additionalDone
    requires forall k :: 0 <= k < |x.jobs| ==> JobOk(x, k)
    ensures forall k :: 0 <= k < |x'.jobs| ==> JobOk(x', k)
  {
    forall k | 0 <= k < |x'.jobs| ensures JobOk(x', k) {
      assert JobOk(x, k);
    }
  }

  lemma AdmitTallied(x: Batch, poolEnded: bool)
    requires Tallied(x) && CanAdmit(x, poolEnded)
    ensures Tallied(Admitted(x, poolEnded))
  {
    assert Admitted(x, poolEnded).jobs == x.jobs;
  }

  lemma AdmitKeepsBatch(x: Batch, poolEnded: bool)
    requires BatchOk(x, poolEnded) && CanAdmit(x, poolEnded)
    ensures BatchOk(Admitted(x, poolEnded), poolEnded)
  {
    var x' := Admitted(x, poolEnded);
    AdmitTallied(x, poolEnded);
    JobsKept(x, x');
  }

  lemma HandKeepsBatch(x: Batch, w: nat, poolEnded: bool)
    requires BatchOk(x, poolEnded) && x.stage.Sending?
    ensures BatchOk(Handed(x, w), poolEnded)
    ensures x.jobs[x.stage.k] == Unsent
  {
    var x' := Handed(x, w);
    assert JobOk(x, x.stage.k);
    CountJob(x.jobs, x.stage.k, Accepted(w));
    forall k | 0 <= k < |x.jobs| ensures JobOk(x', k) {
      assert JobOk(x, k);
    }
  }

  /** One job's state changes, and nothing any other job's depends on. */
  lemma OtherJobsKept(x: Batch, x': Batch, k: nat, result: Result)
    requires k < |x.jobs| == |x.runs| == |x.results| && |x'.jobs| == |x.jobs|
    requires x'.jobs == x.jobs[k := x'.jobs[k]] && x'.results == x.results[k := result]
    requires |x'.runs| == |x.runs| && x'.runs == x.runs[k := x'.runs[k]]
    requires x'.stage == x.stage && x'.minimum == x.minimum && x'.ended == x.ended
    requires x'.admissionDone == x.admissionDone && x'.additionalDone == x.additionalDone
    requires JobOk(x', k) && forall n :: 0 <= n < |x.jobs| ==> JobOk(x, n)
    ensures forall n :: 0 <= n < |x'.jobs| ==> JobOk(x', n)
  {
    forall n | 0 <= n < |x'.jobs| && n != k ensures JobOk(x', n) {
      assert JobOk(x, n);
    }
  }

  lemma BeginKeepsBatch(x: Batch, k: nat, w: nat, poolEnded: bool)
    requires BatchOk(x, poolEnded) && k < |x.jobs| && x.jobs[k].Accepted?
    ensures BatchOk(Begun(x, k, w), poolEnded)
  {
    CountJob(x.jobs, k, Entered(w));
    assert JobOk(x, k);
    OtherJobsKept(x, Begun(x, k, w), k, x.results[k]);
  }

  lemma SkipKeepsBatch(x: Batch, k: nat, poolEnded: bool)
    requires BatchOk(x, poolEnded) && k < |x.jobs| && x.jobs[k].Entered? && (x.ended || Stopped(x, k))
    ensures BatchOk(Left(x, k, Skipped), poolEnded)
  {
    CountJob(x.jobs, k, Skipped);
    CountPositive(x.jobs, InFlight);
    assert JobOk(x, k);
    OtherJobsKept(x, Left(x, k, Skipped), k, x.results[k]);
  }

  lemma StartKeepsBatch(x: Batch, k: nat, w: nat, poolEnded: bool)
    requires BatchOk(x, poolEnded) && k < |x.jobs| && x.jobs[k].Entered?
    ensures BatchOk(CheckStarts(x, k, w), poolEnded)
  {
    CountJob(x.jobs, k, Started(w));
    assert JobOk(x, k);
    OtherJobsKept(x, CheckStarts(x, k, w), k, x.results[k]);
  }

  /** One more check that started is over, and no other count changes. */
  lemma CountEnd(jobs: seq<Job>, k: nat, job: Job)
    requires k < |jobs| && jobs[k].Started? && (job == Canceled || job == Discarded || job == Completed)
    ensures var jobs' := jobs[k := job];
            && 0 < Count(jobs, InFlight) == Count(jobs', InFlight) + 1
            && Count(jobs', HasStarted) == Count(jobs, HasStarted)
            && Count(jobs', IsCompleted) == Count(jobs, IsCompleted) + (if job == Completed then 1 else 0)
            && Count(jobs', IsCanceled) == Count(jobs, IsCanceled) + (if job == Canceled then 1 else 0)
            && Count(jobs', IsDiscarded) == Count(jobs, IsDiscarded) + (if job == Discarded then 1 else 0)
  {
    CountJob(jobs, k, job);
    CountPositive(jobs, InFlight);
  }

  lemma ConclusionTallied(x: Batch, k: nat, result: Result)
    requires |x.jobs| == |x.results| && Tallied(x) && k < |x.jobs| && x.jobs[k].Started?
    ensures Tallied(Concluded(x, k, result))
  {
    CountEnd(x.jobs, k, if x.ended then Canceled else if result.clientId == "" then Discarded else Completed);
  }

  lemma ConclusionKeepsBatch(x: Batch, k: nat, result: Result, poolEnded: bool)
    requires BatchOk(x, poolEnded) && k < |x.jobs| && x.jobs[k].Started?
    ensures BatchOk(Concluded(x, k, result), poolEnded)
  {
    var x' := Concluded(x, k, result);
    ConclusionTallied(x, k, result);
    assert JobOk(x, k);
    OtherJobsKept(x, x', k, x'.results[k]);
    assert x.stage.Returned? ==> x'.group == 0;
  }

  // ----- Every step -----

  /** A batch changes and no job of it leaves or enters a worker. */
  lemma BatchChanges(s: System, b: nat, x: Batch)
    requires Inv(s) && b < |s.batches| && BatchOk(x, s.poolEnded) && x.jobs == s.batches[b].jobs
    ensures Inv(WithBatch(s, b, x))
  {
    var s' := WithBatch(s, b, x);
    forall w | 0 <= w < |s'.workers| ensures WorkerOk(s', w) {
      assert WorkerOk(s, w);
    }
    forall c, k | 0 <= c < |s'.batches| && 0 <= k < |s'.batches[c].jobs| ensures Held(s', c, k) {
      assert Held(s, c, k);
    }
  }

  lemma SignalKeepsInv(s: System, a: Action)
    requires Inv(s) && Enabled(s, a) && (a.EndPool? || a.EndContext? || a.StopAdmission?)
    ensures Inv(Apply(s, a))
  {
    if a.EndPool? {
      var s' := Apply(s, a);
      forall b | 0 <= b < |s'.batches| ensures BatchOk(s'.batches[b], s'.poolEnded) {
        assert BatchOk(s.batches[b], s.poolEnded);
      }
      forall w | 0 <= w < |s'.workers| ensures WorkerOk(s', w) {
        assert WorkerOk(s, w);
      }
      forall c, k | 0 <= c < |s'.batches| && 0 <= k < |s'.batches[c].jobs| ensures Held(s', c, k) {
        assert Held(s, c, k);
      }
    } else {
      var x, x' := s.batches[a.b], Apply(s, a).batches[a.b];
      assert BatchOk(x, s.poolEnded);
      JobsKept(x, x');
      BatchChanges(s, a.b, x');
    }
  }

  /** Worker `w` moves between stages that are in no job's body. */
  lemma WorkerMoves(s: System, w: nat, worker: Worker)
    requires Inv(s) && w < |s.workers| && Body(worker) == Body(s.workers[w]) == None
    requires worker == Gone ==> s.poolEnded
    ensures Inv(WithWorker(s, w, worker))
  {
    var s' := WithWorker(s, w, worker);
    forall v | 0 <= v < |s'.workers| ensures WorkerOk(s', v) {
      assert WorkerOk(s, v);
    }
    forall c, k | 0 <= c < |s'.batches| && 0 <= k < |s'.batches[c].jobs| ensures Held(s', c, k) {
      assert Held(s, c, k);
    }
  }

  lemma HandKeepsInv(s: System, b: nat, w: nat)
    requires Inv(s) && Enabled(s, Hand(b, w))
    ensures Inv(Apply(s, Hand(b, w)))
  {
    var s', n := Apply(s, Hand(b, w)), s.batches[b].stage.k;
    HandKeepsBatch(s.batches[b], w, s.poolEnded);
    forall v | 0 <= v < |s'.workers| ensures WorkerOk(s', v) {
      assert WorkerOk(s, v);
    }
    forall c, k | 0 <= c < |s'.batches| && 0 <= k < |s'.batches[c].jobs| ensures Held(s', c, k) {
      assert Held(s, c, k);
    }
  }

  /** Worker `w` goes on in, or leaves, the body of the job it holds. */
  lemma BodyStepKeepsInv(s: System, w: nat, b: nat, k: nat, x: Batch, worker: Worker)
    requires Inv(s) && w < |s.workers| && Body(s.workers[w]) == Some((b, k)) && b < |s.batches|
    requires BatchOk(x, s.poolEnded) && k < |x.jobs| == |s.batches[b].jobs|
    requires x.jobs == s.batches[b].jobs[k := x.jobs[k]]
    requires WorkerOk(WithWorker(WithBatch(s, b, x), w, worker), w)
    requires if InFlight(x.jobs[k]) then x.jobs[k].worker == w && Body(worker) == Some((b, k)) else Body(worker) == None
    ensures Inv(WithWorker(WithBatch(s, b, x), w, worker))
  {
    var s' := WithWorker(WithBatch(s, b, x), w, worker);
    assert WorkerOk(s, w);
    forall v | 0 <= v < |s'.workers| ensures WorkerOk(s', v) {
      assert WorkerOk(s, v);
    }
    forall c, n | 0 <= c < |s'.batches| && 0 <= n < |s'.batches[c].jobs| ensures Held(s', c, n) {
      assert Held(s, c, n);
    }
  }

  lemma BeginKeepsInv(s: System, w: nat, result: Result)
    requires Inv(s) && Enabled(s, Work(w, result)) && s.workers[w].Beginning?
    ensures Inv(Worked(s, w, result))
  {
    assert WorkerOk(s, w);
    var b, k, jobs := s.workers[w].b, s.workers[w].k, s.batches[s.workers[w].b].jobs;
    var x := Begun(s.batches[b], k, w);
    BeginKeepsBatch(s.batches[b], k, w, s.poolEnded);
    if x.ended {
      SkipKeepsBatch(x, k, s.poolEnded);
      assert jobs[k := Entered(w)][k := Skipped] == jobs[k := Skipped];
      BodyStepKeepsInv(s, w, b, k, Left(x, k, Skipped), Top);
    } else {
      BodyStepKeepsInv(s, w, b, k, x, Admitting(b, k));
    }
  }

  lemma AdmitBodyKeepsInv(s: System, w: nat, result: Result)
    requires Inv(s) && Enabled(s, Work(w, result)) && s.workers[w].Admitting?
    ensures Inv(Worked(s, w, result))
  {
    assert WorkerOk(s, w);
    var b, k, x := s.workers[w].b, s.workers[w].k, s.batches[s.workers[w].b];
    if Stopped(x, k) {
      SkipKeepsBatch(x, k, s.poolEnded);
      BodyStepKeepsInv(s, w, b, k, Left(x, k, Skipped), Top);
    } else {
      StartKeepsBatch(x, k, w, s.poolEnded);
      BodyStepKeepsInv(s, w, b, k, CheckStarts(x, k, w), Checking(b, k));
    }
  }

  lemma CheckKeepsInv(s: System, w: nat, result: Result)
    requires Inv(s) && Enabled(s, Work(w, result)) && (s.workers[w].Checking? || s.workers[w].Ending?)
    ensures Inv(Worked(s, w, result))
  {
    assert WorkerOk(s, w);
    var b, k, x := s.workers[w].b, s.workers[w].k, s.batches[s.workers[w].b];
    if s.workers[w].Checking? {
      assert WithBatch(s, b, x) == s;
      BodyStepKeepsInv(s, w, b, k, x, Ending(b, k, result));
    } else {
      ConclusionKeepsBatch(x, k, s.workers[w].result, s.poolEnded);
      BodyStepKeepsInv(s, w, b, k, Concluded(x, k, s.workers[w].result), Top);
    }
  }

  lemma WorkKeepsInv(s: System, w: nat, result: Result)
    requires Inv(s) && Enabled(s, Work(w, result))
    ensures Inv(Worked(s, w, result))
  {
    if s.workers[w].Top? || s.workers[w].Waiting? {
      WorkerMoves(s, w, Worked(s, w, result).workers[w]);
    } else if s.workers[w].Beginning? {
      BeginKeepsInv(s, w, result);
    } else if s.workers[w].Admitting? {
      AdmitBodyKeepsInv(s, w, result);
    } else {
      CheckKeepsInv(s, w, result);
    }
  }

  lemma StepKeepsInv(s: System, a: Action)
    requires Inv(s) && Enabled(s, a)
    ensures Inv(Apply(s, a))
  {
    match a
    case Admit(b) =>
      AdmitKeepsBatch(s.batches[b], s.poolEnded);
      BatchChanges(s, b, Admitted(s.batches[b], s.poolEnded));
    case Hand(b, w) => HandKeepsInv(s, b, w);
    case Work(w, result) => WorkKeepsInv(s, w, result);
    case _ => SignalKeepsInv(s, a);
  }

  lemma FreshIsOk(x: Batch, poolEnded: bool)
    requires Fresh(x)
    ensures BatchOk(x, poolEnded)
  {
    CountPositive(x.jobs, InFlight);
    CountPositive(x.jobs, HasStarted);
    CountPositive(x.jobs, IsCompleted);
    CountPositive(x.jobs, IsCanceled);
    CountPositive(x.jobs, IsDiscarded);
  }

  lemma {:induction false} RunKeepsInv(s: System, actions: seq<Action>, s': System)
    requires Inv(s) && Runs(s, actions, s')
    ensures Inv(s')
    ensures |s'.workers| == |s.workers| && |s'.batches| == |s.batches|
    decreases |actions|
  {
    if actions != [] {
      StepKeepsInv(s, actions[0]);
      RunKeepsInv(Apply(s, actions[0]), actions[1..], s');
    }
  }

  lemma ReachableInv(s: System)
    requires Reachable(s)
    ensures Inv(s)
  {
    var s0, actions :| Initial(s0) && Runs(s0, actions, s);
    forall b | 0 <= b < |s0.batches| ensures BatchOk(s0.batches[b], s0.poolEnded) {
      FreshIsOk(s0.batches[b], s0.poolEnded);
    }
    RunKeepsInv(s0, actions, s);
  }

  // ----- The promises -----

  predicate IsOver(j: Job) {
    j.Skipped? || j.Canceled? || j.Discarded? || j.Completed?
  }

  predicate SameBody(v: Worker, w: Worker) {
    Body(v).Some? && Body(v) == Body(w)
  }

  /** At any moment: the accepted jobs are a prefix of the providers, the body of each has
      run at most once and of no other at all, and every one that a worker is past the
      beginning of, or that is over, has run; the wait group counts the jobs in flight and
      the one being submitted; and no two workers are in one job. */
  lemma BatchAtAnyTime(s: System, b: nat)
    requires Reachable(s) && b < |s.batches|
    ensures var x := s.batches[b];
            && |x.runs| == |x.jobs| && x.stage.k <= |x.jobs|
            && (forall k :: 0 <= k < |x.jobs| ==> (x.jobs[k] != Unsent <==> k < x.stage.k))
            && (forall k :: 0 <= k < |x.jobs| ==> x.runs[k] <= 1)
            && (forall k :: 0 <= k < |x.jobs| ==> (x.runs[k] == 1 <==> x.jobs[k] != Unsent && !x.jobs[k].Accepted?))
            && x.group == Count(x.jobs, InFlight) + Pending(x.stage)
    ensures forall v, w :: 0 <= v < |s.workers| && 0 <= w < |s.workers| && SameBody(s.workers[v], s.workers[w]) ==>
              v == w
  {
    ReachableInv(s);
    var x := s.batches[b];
    forall k | 0 <= k < |x.jobs|
      ensures x.jobs[k] != Unsent <==> k < x.stage.k
      ensures x.runs[k] == if x.jobs[k] != Unsent && !x.jobs[k].Accepted? then 1 else 0
    {
      assert JobOk(x, k);
    }
    forall v, w | 0 <= v < |s.workers| && 0 <= w < |s.workers| && SameBody(s.workers[v], s.workers[w]) ensures v == w
    {
      assert WorkerOk(s, v) && WorkerOk(s, w);
    }
  }

  /** When a batch returns, every job it had accepted is over, its body has run exactly once,
      the pool being ended or not, and no worker is in one. */
  lemma BatchJoins(s: System, b: nat)
    requires Reachable(s) && b < |s.batches| && s.batches[b].stage.Returned?
    ensures s.batches[b].group == 0
    ensures forall k :: 0 <= k < |s.batches[b].jobs| ==> s.batches[b].jobs[k] == Unsent || IsOver(s.batches[b].jobs[k])
    ensures var x := s.batches[b];
            |x.runs| == |x.jobs| && forall k :: 0 <= k < |x.jobs| ==> x.runs[k] == if k < x.stage.k then 1 else 0
    ensures forall w :: 0 <= w < |s.workers| && Body(s.workers[w]).Some? ==> Body(s.workers[w]).value.0 != b
  {
    BatchAtAnyTime(s, b);
    ReachableInv(s);
    var x := s.batches[b];
    CountPositive(x.jobs, InFlight);
    forall w | 0 <= w < |s.workers| && Body(s.workers[w]).Some? ensures Body(s.workers[w]).value.0 != b {
      assert WorkerOk(s, w);
    }
  }

  lemma {:induction false} StartedParts(jobs: seq<Job>)
    ensures Count(jobs, HasStarted) ==
              Count(jobs, IsStarted) + Count(jobs, IsCompleted) + Count(jobs, IsCanceled) + Count(jobs, IsDiscarded)
  {
    if jobs != [] {
      StartedParts(jobs[..|jobs| - 1]);
    }
  }

  lemma {:induction false} RetainedCount(results: seq<Result>, jobs: seq<Job>)
    requires |results| == |jobs|
    requires forall k :: 0 <= k < |jobs| ==> (results[k].clientId != "" <==> jobs[k] == Completed)
    ensures |Retained(results)| == Count(jobs, IsCompleted)
  {
    if jobs != [] {
      RetainedCount(results[..|jobs| - 1], jobs[..|jobs| - 1]);
    }
  }

  /** Every check that started has completed, been canceled or been discarded by the time
      its batch returns, and the checks it retains are the completed ones. */
  lemma EventsBalance(s: System, b: nat)
    requires Reachable(s) && b < |s.batches| && s.batches[b].stage.Returned?
    ensures s.batches[b].started == s.batches[b].completed + s.batches[b].canceled + s.batches[b].discarded
    ensures s.batches[b].canceled == Count(s.batches[b].jobs, IsCanceled)
    ensures s.batches[b].discarded == Count(s.batches[b].jobs, IsDiscarded)
    ensures |Retained(s.batches[b].results)| == s.batches[b].completed
    ensures |s.batches[b].results| == |s.batches[b].jobs|
    ensures forall k :: 0 <= k < |s.batches[b].jobs| ==>
              (s.batches[b].results[k].clientId != "" <==> s.batches[b].jobs[k] == Completed)
    ensures (exists k :: 0 <= k < |s.batches[b].jobs| && s.batches[b].jobs[k] == Canceled) ==> s.batches[b].ended
  {
    BatchJoins(s, b);
    ReachableInv(s);
    var x := s.batches[b];
    StartedParts(x.jobs);
    CountPositive(x.jobs, IsStarted);
    forall k | 0 <= k < |x.jobs|
      ensures x.results[k].clientId != "" <==> x.jobs[k] == Completed
      ensures x.jobs[k] == Canceled ==> x.ended
    {
      assert JobOk(x, k);
    }
    RetainedCount(x.results, x.jobs);
  }

  /** A result that comes back after its batch's context has ended is not kept. */
  lemma LateResultDropped(s: System, w: nat, result: Result)
    requires Reachable(s) && Enabled(s, Work(w, result)) && s.workers[w].Ending?
    ensures var b, k := s.workers[w].b, s.workers[w].k;
            && |Worked(s, w, result).batches| == |s.batches| && b < |s.batches|
            && k < |s.batches[b].results| == |Worked(s, w, result).batches[b].results|
            && |s.batches[b].results| == |Worked(s, w, result).batches[b].jobs|
            && Worked(s, w, result).batches[b].results[k].clientId ==
                 (if s.batches[b].ended then "" else s.workers[w].result.clientId)
            && (!s.batches[b].ended ==> Worked(s, w, result).batches[b].results[k] == s.workers[w].result)
            && (Worked(s, w, result).batches[b].jobs[k] == Canceled <==> s.batches[b].ended)
            && (Worked(s, w, result).batches[b].jobs[k] == Completed <==>
                  !s.batches[b].ended && s.workers[w].result.clientId != "")
  {
    ReachableInv(s);
    assert WorkerOk(s, w);
    assert JobOk(s.batches[s.workers[w].b], s.workers[w].k);
  }

  /** At any moment, not just when the batch has returned: the results kept are those of the
      completed checks, and a canceled check, of a batch whose context has ended, has
      none. */
  lemma KeptAreCompleted(s: System, b: nat, k: nat)
    requires Reachable(s) && b < |s.batches| && k < |s.batches[b].jobs|
    ensures k < |s.batches[b].results| == |s.batches[b].jobs|
    ensures s.batches[b].results[k].clientId != "" <==> s.batches[b].jobs[k] == Completed
    ensures s.batches[b].jobs[k] == Canceled ==> s.batches[b].ended
  {
    ReachableInv(s);
    assert JobOk(s.batches[b], k);
  }

  ghost predicate ResultsKept(x: Batch, x': Batch) {
    && (x.ended ==> x'.ended && x'.results == x.results && x'.completed == x.completed)
    && |x.jobs| == |x'.jobs| == |x.results| == |x'.results|
    && forall k :: 0 <= k < |x.jobs| && x.jobs[k] == Completed ==>
         x'.jobs[k] == Completed && x'.results[k] == x.results[k]
  }

  lemma JobEndKeepsResults(x: Batch, k: nat, result: Result)
    requires k < |x.jobs| == |x.results| && x.jobs[k].Started?
    ensures ResultsKept(x, Concluded(x, k, result))
  {
  }

  lemma BodyStepKeepsResults(s: System, w: nat, result: Result)
    requires Inv(s) && Enabled(s, Work(w, result)) && Body(s.workers[w]).Some?
    ensures ResultsKept(s.batches[Body(s.workers[w]).value.0],
                        Worked(s, w, result).batches[Body(s.workers[w]).value.0])
  {
    assert WorkerOk(s, w);
    var (b, k) := Body(s.workers[w]).value;
    if s.workers[w].Ending? {
      JobEndKeepsResults(s.batches[b], k, s.workers[w].result);
    }
  }

  lemma HandKeepsResults(x: Batch, w: nat)
    requires x.stage.Sending? && x.stage.k < |x.jobs| == |x.runs| == |x.results| && JobOk(x, x.stage.k)
    ensures ResultsKept(x, Handed(x, w))
  {
  }

  lemma AdmitKeepsResults(x: Batch, poolEnded: bool)
    requires |x.jobs| == |x.results|
    ensures ResultsKept(x, Admitted(x, poolEnded))
  {
  }

  lemma StepKeepsResults(s: System, a: Action, b: nat)
    requires Inv(s) && Enabled(s, a) && b < |s.batches|
    ensures ResultsKept(s.batches[b], Apply(s, a).batches[b])
  {
    match a
    case Hand(c, w) =>
      assert JobOk(s.batches[c], s.batches[c].stage.k);
      HandKeepsResults(s.batches[c], w);
    case Admit(c) => AdmitKeepsResults(s.batches[c], s.poolEnded);
    case Work(w, result) =>
      if Body(s.workers[w]).Some? {
        BodyStepKeepsResults(s, w, result);
      }
    case _ =>
  }

  /** Once a batch's context has ended its results stand as they are, whatever still comes
      back, and a result that was kept before stands for good. */
  lemma {:induction false} ResultsStand(s: System, actions: seq<Action>, s': System, b: nat)
    requires Inv(s) && Runs(s, actions, s') && b < |s.batches|
    ensures |s'.batches| == |s.batches| && ResultsKept(s.batches[b], s'.batches[b])
    decreases |actions|
  {
    if actions != [] {
      StepKeepsInv(s, actions[0]);
      StepKeepsResults(s, actions[0], b);
      ResultsStand(Apply(s, actions[0]), actions[1..], s', b);
    }
  }

  /** Unless the batch's context or its pool ends, its first `minimum` checks all start,
      whatever the admission signals do, and all the others do unless one of those fires. */
  lemma MinimumAdmitted(s: System, b: nat)
    requires Reachable(s) && b < |s.batches| && s.batches[b].stage.Returned?
    requires !s.batches[b].ended && !s.poolEnded
    ensures var x := s.batches[b];
            forall k :: 0 <= k < |x.jobs| && (k < x.minimum || !(x.admissionDone || x.additionalDone)) ==>
              HasStarted(x.jobs[k])
  {
    BatchJoins(s, b);
    ReachableInv(s);
    var x := s.batches[b];
    forall k | 0 <= k < |x.jobs| && (k < x.minimum || !(x.admissionDone || x.additionalDone))
      ensures HasStarted(x.jobs[k])
    {
      assert JobOk(x, k);
    }
  }

  lemma HolderWorks(s: System, b: nat, k: nat)
    requires Inv(s) && b < |s.batches| && k < |s.batches[b].jobs| && InFlight(s.batches[b].jobs[k])
    ensures Enabled(s, Work(s.batches[b].jobs[k].worker, NO_RESULT))
  {
    assert Held(s, b, k) && BatchOk(s.batches[b], s.poolEnded);
    CountPositive(s.batches[b].jobs, InFlight);
  }

  /** No batch can be left waiting for good: until it returns, its own loop or some worker
      can step, the pool being ended or not. */
  lemma BatchNeverStuck(s: System, b: nat)
    requires Inv(s) && b < |s.batches| && 0 < |s.workers| && !s.batches[b].stage.Returned?
    ensures Enabled(s, Admit(b)) || exists w :: Enabled(s, Hand(b, w)) || Enabled(s, Work(w, NO_RESULT))
  {
    var x := s.batches[b];
    if !CanAdmit(x, s.poolEnded) {
      if x.stage.Joining? {
        CountPositive(x.jobs, InFlight);
        var k :| 0 <= k < |x.jobs| && InFlight(x.jobs[k]);
        HolderWorks(s, b, k);
      } else {
        assert x.stage.Sending? && WorkerOk(s, 0);
        if s.workers[0] == Waiting {
          assert Enabled(s, Hand(b, 0));
        } else {
          if Body(s.workers[0]).Some? {
            HolderWorks(s, Body(s.workers[0]).value.0, Body(s.workers[0]).value.1);
          }
          assert Enabled(s, Work(0, NO_RESULT));
        }
      }
    }
  }

  // ----- The workers bound the work -----

  /** The workers some job in flight was handed to. */
  function Holders(jobs: seq<Job>): set<nat> {
    if jobs == [] then {}
    else
      var j := jobs[|jobs| - 1];
      Holders(jobs[..|jobs| - 1]) + if InFlight(j) then {j.worker} else {}
  }

  function AllHolders(batches: seq<Batch>): set<nat> {
    if batches == [] then {} else AllHolders(batches[..|batches| - 1]) + Holders(batches[|batches| - 1].jobs)
  }

  /** How many jobs are in flight, in all the batches together. */
  function AllInFlight(batches: seq<Batch>): nat {
    if batches == [] then 0 else AllInFlight(batches[..|batches| - 1]) + Count(batches[|batches| - 1].jobs, InFlight)
  }

  /** Worker `w` is in one of the first `n` jobs of batch `b`. */
  ghost predicate WorksIn(s: System, w: nat, b: nat, n: nat) {
    w < |s.workers| && Body(s.workers[w]).Some? && Body(s.workers[w]).value.0 == b && Body(s.workers[w]).value.1 < n
  }

  lemma {:induction false} HoldersCounted(s: System, b: nat, n: nat)
    requires Inv(s) && b < |s.batches| && n <= |s.batches[b].jobs|
    ensures |Holders(s.batches[b].jobs[..n])| == Count(s.batches[b].jobs[..n], InFlight)
    ensures forall w :: w in Holders(s.batches[b].jobs[..n]) ==> WorksIn(s, w, b, n)
  {
    var jobs := s.batches[b].jobs;
    if 0 < n {
      HoldersCounted(s, b, n - 1);
      assert jobs[..n][..n - 1] == jobs[..n - 1];
      assert Held(s, b, n - 1);
    }
  }

  ghost predicate WorksBefore(s: System, w: nat, n: nat) {
    w < |s.workers| && Body(s.workers[w]).Some? && Body(s.workers[w]).value.0 < n
  }

  lemma {:induction false} AllHoldersCounted(s: System, n: nat)
    requires Inv(s) && n <= |s.batches|
    ensures |AllHolders(s.batches[..n])| == AllInFlight(s.batches[..n])
    ensures forall w :: w in AllHolders(s.batches[..n]) ==> WorksBefore(s, w, n)
  {
    if 0 < n {
      var jobs := s.batches[n - 1].jobs;
      AllHoldersCounted(s, n - 1);
      assert s.batches[..n][..n - 1] == s.batches[..n - 1];
      HoldersCounted(s, n - 1, |jobs|);
      assert jobs[..|jobs|] == jobs;
      assert AllHolders(s.batches[..n - 1]) !! Holders(jobs) by {
        forall w | w in AllHolders(s.batches[..n - 1]) ensures w !in Holders(jobs) {
          assert WorksBefore(s, w, n - 1);
          assert w in Holders(jobs) ==> WorksIn(s, w, n - 1, |jobs|);
        }
      }
    }
  }

  /** However many batches share a pool, there are never more jobs in flight than it has
      workers. */
  lemma WorkIsBounded(s: System)
    requires Reachable(s)
    ensures AllInFlight(s.batches) <= |s.workers|
  {
    ReachableInv(s);
    AllHoldersCounted(s, |s.batches|);
    assert s.batches[..|s.batches|] == s.batches;
    SubsetSize(AllHolders(s.batches), Below(|s.workers|));
  }

  /** Once a pool has been closed and all its workers are gone, no accepted job is left
      unfinished, and none is ever accepted again. */
  lemma PoolJoins(s: System, b: nat)
    requires Reachable(s) && b < |s.batches| && forall w :: 0 <= w < |s.workers| ==> s.workers[w] == Gone
    ensures forall k :: 0 <= k < |s.batches[b].jobs| ==> s.batches[b].jobs[k] == Unsent || IsOver(s.batches[b].jobs[k])
    ensures forall w :: 0 <= w < |s.workers| ==> !Enabled(s, Hand(b, w)) && !Enabled(s, Work(w, NO_RESULT))
    ensures 0 < |s.workers| ==> s.poolEnded
  {
    ReachableInv(s);
    forall k | 0 <= k < |s.batches[b].jobs| ensures s.batches[b].jobs[k] == Unsent || IsOver(s.batches[b].jobs[k]) {
      assert Held(s, b, k);
    }
    if 0 < |s.workers| {
      assert WorkerOk(s, 0);
    }
  }

  // ----- What a batch reports -----

  datatype Summary = Summary(checks: seq<Result>, dark: nat, tunnelFailed: nat, notMeasured: nat)

  /** The results there are, in provider order. */
  function Retained(results: seq<Result>): seq<Result> {
    if results == [] then []
    else
      var before, result := results[..|results| - 1], results[|results| - 1];
      Retained(before) + if result.clientId == "" then [] else [result]
  }

  predicate IsNotMeasured(r: Result) { r.notMeasured }
  predicate IsDark(r: Result) { r.dark && !r.notMeasured }
  predicate IsTunnelFailed(r: Result) { r.dark && !r.notMeasured && r.tunnelFailed }

  predicate IsBright(r: Result) { !r.dark && !r.notMeasured }
  predicate IsTunnelUp(r: Result) { r.dark && !r.notMeasured && !r.tunnelFailed }

  /** The results reported are the dark, the not measured and the others, and the dark are those
      whose tunnel failed and those whose tunnel did not. */
  lemma {:induction false} SummaryPartition(checks: seq<Result>)
    ensures |checks| == Count(checks, IsDark) + Count(checks, IsNotMeasured) + Count(checks, IsBright)
    ensures Count(checks, IsDark) == Count(checks, IsTunnelFailed) + Count(checks, IsTunnelUp)
  {
    if checks != [] {
      SummaryPartition(checks[..|checks| - 1]);
    }
  }

  method Summarize(results: seq<Result>) returns (summary: Summary)
    ensures summary == Summary(Retained(results), Count(Retained(results), IsDark),
                               Count(Retained(results), IsTunnelFailed), Count(Retained(results), IsNotMeasured))
  {
    summary := Summary([], 0, 0, 0);
    for i := 0 to |results|
      invariant summary == Summary(Retained(results[..i]), Count(Retained(results[..i]), IsDark),
                                   Count(Retained(results[..i]), IsTunnelFailed),
                                   Count(Retained(results[..i]), IsNotMeasured))
    {
      var result := results[i];
      assert results[..i + 1][..i] == results[..i];
      if result.clientId == "" {
        assert Retained(results[..i + 1]) == Retained(results[..i]);
        continue;
      }
      ghost var kept := summary.checks;
      assert Retained(results[..i + 1]) == kept + [result];
      summary := summary.(checks := summary.checks + [result]);
      CountAppend(kept, result, IsDark);
      CountAppend(kept, result, IsTunnelFailed);
      CountAppend(kept, result, IsNotMeasured);
      if result.notMeasured {
        summary := summary.(notMeasured := summary.notMeasured + 1);
      } else if result.dark {
        summary := summary.(dark := summary.dark + 1);
        if result.tunnelFailed {
          summary := summary.(tunnelFailed := summary.tunnelFailed + 1);
        }
      }
    }
    assert results[..|results|] == results;
  }

  /** The checks reported are the providers' results in provider order: the `n`-th of them
      is the result of the provider before which `n` others have one. */
  lemma {:induction false} ChecksInOrder(results: seq<Result>, k: nat)
    requires k < |results| && results[k].clientId != ""
    ensures |Retained(results[..k])| < |Retained(results)|
    ensures Retained(results)[|Retained(results[..k])|] == results[k]
  {
    var n := |results| - 1;
    if k < n {
      ChecksInOrder(results[..n], k);
      assert results[..n][..k] == results[..k];
    }
  }
}
