/** The single-flight protocol by which callers get a live client and replace a lost
    tunnel.

    The tracker's three locked scopes are the methods of a class, each proved equal
    to a function on the tracker's state.  The protocol is those functions
    interleaved, for any number of callers, with the calls made outside the lock:
    each such call is a step of its own. */
module PathTracker {
  import opened Common
  import opened PathContract

  // ----- The locked scopes -----

  datatype Tracker = Tracker(limit: nat, inflight: Option<nat>, reopenCount: nat, finished: nat)

  /** What the second locked scope tells its caller to do.  Re-opens are numbered
      in the order they start. */
  datatype Decision = Join(call: nat) | TakeReopened | UseRead | Refuse | Start(call: nat)

  function Decided(t: Tracker, finished: nat, isLost: bool): (Tracker, Decision) {
    if t.inflight.Some? then (t, Join(t.inflight.value))
    else if t.finished != finished then (t, TakeReopened)
    else if !isLost then (t, UseRead)
    else if t.limit <= t.reopenCount then (t, Refuse)
    else (t.(inflight := Some(t.reopenCount), reopenCount := t.reopenCount + 1), Start(t.reopenCount))
  }

  function Ended(t: Tracker): Tracker {
    t.(inflight := None, finished := t.finished + 1)
  }

  class PathTracker {
    const reopenLimit: nat
    var inflight: Option<nat>
    var reopenCount: nat
    var finishedReopenCount: nat

    function State(): Tracker
      reads this
    {
      Tracker(reopenLimit, inflight, reopenCount, finishedReopenCount)
    }

    constructor (limit: nat)
      ensures State() == Tracker(limit, None, 0, 0)
    {
      reopenLimit := limit;
      inflight, reopenCount, finishedReopenCount := None, 0, 0;
    }

    method Enter() returns (call: Option<nat>, finished: nat)
      ensures call == State().inflight && finished == State().finished
    {
      call, finished := inflight, finishedReopenCount;
    }

    method Decide(finished: nat, isLost: bool) returns (decision: Decision)
      modifies this
      ensures (State(), decision) == Decided(old(State()), finished, isLost)
    {
      if inflight.Some? {
        decision := Join(inflight.value);
      } else if finishedReopenCount != finished {
        decision := TakeReopened;
      } else if !isLost {
        decision := UseRead;
      } else if reopenLimit <= reopenCount {
        decision := Refuse;
      } else {
        decision := Start(reopenCount);
        inflight := Some(reopenCount);
        reopenCount := reopenCount + 1;
      }
    }

    method Finish()
      modifies this
      ensures State() == Ended(old(State()))
    {
      inflight := None;
      finishedReopenCount := finishedReopenCount + 1;
    }
  }

  // ----- The protocol -----

  datatype CallOutcome = Pending | Failed | Opened

  /** One re-open: who runs it, the generation it replaces, and what became of it.
      `done` is its channel, closed. */
  datatype Call = Call(owner: nat, base: nat, outcome: CallOutcome, done: bool)

  /** The generation a re-open leaves current. */
  function Left(c: Call): nat {
    if c.outcome == Opened then c.base + 1 else c.base
  }

  /** The generation the first `k` re-opens leave current. */
  function LeftBy(calls: seq<Call>, k: nat): nat
    requires k <= |calls|
  {
    if k == 0 then 0 else Left(calls[k - 1])
  }

  /** How a client was come by: read with no re-open started or finished around the
      read, read after the first `k` re-opens had finished, or read once a re-open that
      its caller ran or waited for had succeeded. */
  datatype Route = Direct | After(k: nat) | Awaited(call: nat)

  datatype Reason = RecreateLimit | ReopenFailed(call: nat) | RunEnded

  /** Where one caller is in `live`. */
  datatype Phase =
    | Outside
    | Entered(finished: nat)
    | HasClient(finished: nat, gen: nat)
    | Looked(finished: nat, gen: nat, isLost: bool)
    | Rereading(k: nat)
    | Reopening(call: nat)
    | Reopened(call: nat)
    | Warming(call: nat, gen: nat)
    | Finishing(call: nat)
    | Closing(call: nat)
    | Awaiting(call: nat)
    | Outcome(call: nat)
    | Returned(gen: nat, route: Route)
    | Refused(reason: Reason)

  /** `warmed[g]` is how many warm-ups have finished on generation `g`'s client;
      `ended` says the run's context is done. */
  datatype System = System(tracker: Tracker, path: Path, warmed: seq<nat>, calls: seq<Call>,
                           ended: bool, callers: seq<Phase>)

  /** One caller's next step; only the path decides how a re-open comes out. */
  datatype Move = Proceed | ReopenSucceeds(dead: bool) | ReopenFails | CancelWait

  datatype Action = LoseTunnel(gen: nat) | EndRun | Caller(i: nat, move: Move)

  function At(s: System, i: nat, phase: Phase): System
    requires i < |s.callers|
  {
    s.(callers := s.callers[i := phase])
  }

  predicate CanMove(s: System, i: nat, m: Move) {
    && i < |s.callers|
    && match s.callers[i]
       case Reopening(c) => (m.ReopenSucceeds? || m.ReopenFails?) && c < |s.calls|
       case Awaiting(c) => (m.Proceed? && c < |s.calls| && s.calls[c].done) || (m.CancelWait? && s.ended)
       case Warming(c, g) => m.Proceed? && g < |s.warmed|
       case Closing(c) => m.Proceed? && c < |s.calls|
       case Outcome(c) => m.Proceed? && c < |s.calls|
       case _ => m.Proceed?
  }

  function AfterDecision(s: System, i: nat, gen: nat, t: Tracker, d: Decision): System
    requires i < |s.callers|
  {
    match d
    case Join(c) => At(s, i, Awaiting(c))
    case TakeReopened => At(s, i, Rereading(s.tracker.finished))
    case UseRead => At(s, i, Returned(gen, Direct))
    case Refuse => At(s, i, Refused(RecreateLimit))
    case Start(c) =>
      At(s, i, Reopening(c)).(tracker := t, calls := s.calls + [Call(i, s.path.generation, Pending, false)])
  }

  function Moved(s: System, i: nat, m: Move): System
    requires CanMove(s, i, m)
  {
    match s.callers[i]
    case Outside =>
      if s.tracker.inflight.Some? then At(s, i, Awaiting(s.tracker.inflight.value))
      else At(s, i, Entered(s.tracker.finished))
    case Entered(f) => At(s, i, HasClient(f, s.path.generation))
    case HasClient(f, g) => At(s, i, Looked(f, g, g in s.path.lost))
    case Looked(f, g, isLost) =>
      var (t, d) := Decided(s.tracker, f, isLost);
      AfterDecision(s, i, g, t, d)
    case Rereading(k) => At(s, i, Returned(s.path.generation, After(k)))
    case Reopening(c) =>
      if m.ReopenFails? then
        At(s, i, Finishing(c)).(calls := s.calls[c := s.calls[c].(outcome := Failed)])
      else
        At(s, i, Reopened(c)).(calls := s.calls[c := s.calls[c].(outcome := Opened)],
                               path := Advance(s.path, m.dead), warmed := s.warmed + [0])
    case Reopened(c) => At(s, i, Warming(c, s.path.generation))
    case Warming(c, g) => At(s, i, Finishing(c)).(warmed := s.warmed[g := s.warmed[g] + 1])
    case Finishing(c) => At(s, i, Closing(c)).(tracker := Ended(s.tracker))
    case Closing(c) => At(s, i, Outcome(c)).(calls := s.calls[c := s.calls[c].(done := true)])
    case Awaiting(c) => At(s, i, if m.CancelWait? then Refused(RunEnded) else Outcome(c))
    case Outcome(c) =>
      At(s, i, if s.calls[c].outcome == Failed then Refused(ReopenFailed(c))
               else Returned(s.path.generation, Awaited(c)))
    case Returned(_, _) => At(s, i, Outside)
    case Refused(_) => At(s, i, Outside)
  }

  predicate Enabled(s: System, a: Action) {
    match a
    case LoseTunnel(g) => g <= s.path.generation
    case EndRun => true
    case Caller(i, m) => CanMove(s, i, m)
  }

  function Apply(s: System, a: Action): System
    requires Enabled(s, a)
  {
    match a
    case LoseTunnel(g) => s.(path := Lose(s.path, g))
    case EndRun => s.(ended := true)
    case Caller(i, m) => Moved(s, i, m)
  }

  /** Before any load asks: the first tunnel has been warmed up, unless it was lost
      before its warm-up. */
  ghost predicate Initial(s: System) {
    && s.tracker.inflight == None && s.tracker.reopenCount == 0 && s.tracker.finished == 0
    && s.path.generation == 0 && Valid(s.path)
    && s.calls == [] && |s.warmed| == 1 && s.warmed[0] <= 1
    && (s.warmed[0] == 1 || 0 in s.path.lost)
    && forall i :: 0 <= i < |s.callers| ==> s.callers[i] == Outside
  }

  /** Every interleaving: the states some run of enabled actions leads to. */
  ghost predicate Runs(s: System, actions: seq<Action>, s': System)
    decreases |actions|
  {
    if actions == [] then s' == s
    else Enabled(s, actions[0]) && Runs(Apply(s, actions[0]), actions[1..], s')
  }

  // ----- What holds in every interleaving -----

  ghost predicate Quiet(s: System, finished: nat) {
    s.tracker.inflight == None && s.tracker.finished == finished
  }

  ghost predicate Owns(s: System, i: nat, c: nat) {
    s.tracker.inflight == Some(c) && c < |s.calls| && s.calls[c].owner == i
  }

  /** Every re-open counts, finished or in flight, and none past the limit. */
  ghost predicate Counted(s: System) {
    && s.tracker.reopenCount == |s.calls| <= s.tracker.limit
    && |s.calls| == s.tracker.finished + (if s.tracker.inflight.Some? then 1 else 0)
    && (s.tracker.inflight.Some? ==> s.tracker.inflight.value == |s.calls| - 1)
  }

  /** Re-open `k` replaces the tunnel the one before it left. */
  ghost predicate Follows(calls: seq<Call>, k: nat)
    requires k < |calls|
  {
    calls[k].base == LeftBy(calls, k)
  }

  /** Each re-open replaces the tunnel the one before it left. */
  ghost predicate Chained(s: System) {
    && s.path.generation == LeftBy(s.calls, |s.calls|)
    && Valid(s.path)
    && (forall k :: 0 <= k < |s.calls| ==> Follows(s.calls, k))
    && (forall k :: 0 <= k < s.tracker.finished && k < |s.calls| ==> s.calls[k].outcome != Pending)
    && (forall k :: 0 <= k < |s.calls| ==> s.calls[k].owner < |s.callers|)
  }

  /** The re-open in flight has swapped the tunnel and not yet warmed it up. */
  ghost predicate Cold(s: System) {
    && s.tracker.inflight.Some? && s.tracker.inflight.value < |s.calls|
    && var i := s.calls[s.tracker.inflight.value].owner;
       i < |s.callers| && (s.callers[i].Reopened? || s.callers[i].Warming?)
  }

  ghost predicate WarmedOnce(s: System) {
    && |s.warmed| == s.path.generation + 1
    && (s.warmed[0] == 1 || 0 in s.path.lost)
    && (forall g :: 1 <= g < s.path.generation ==> s.warmed[g] == 1)
    && (1 <= s.path.generation ==> s.warmed[s.path.generation] == if Cold(s) then 0 else 1)
    && s.warmed[0] <= 1
  }

  /** The current tunnel is lost, and no re-open is running or left to make. */
  ghost predicate UsedUp(s: System) {
    s.tracker.inflight == None && s.tracker.reopenCount == s.tracker.limit && s.path.generation in s.path.lost
  }

  /** What one caller can rely on wherever it is in `live`. */
  ghost predicate PhaseOk(s: System, i: nat)
    requires i < |s.callers| && |s.warmed| == s.path.generation + 1
  {
    match s.callers[i]
    case Outside => true
    case Entered(f) => f <= s.tracker.finished
    case HasClient(f, g) =>
      f <= s.tracker.finished && g <= s.path.generation && (Quiet(s, f) ==> g == s.path.generation)
    case Looked(f, g, isLost) =>
      && f <= s.tracker.finished && g <= s.path.generation
      && (Quiet(s, f) ==> g == s.path.generation)
      && (isLost ==> g in s.path.lost)
      && (!isLost && g == 0 ==> s.warmed[0] == 1)
    case Rereading(k) => 0 < k <= s.tracker.finished
    case Reopening(c) => Owns(s, i, c) && s.calls[c].outcome == Pending && s.path.generation in s.path.lost
    case Reopened(c) => Owns(s, i, c) && s.calls[c].outcome == Opened
    case Warming(c, g) => Owns(s, i, c) && s.calls[c].outcome == Opened && g == s.path.generation
    case Finishing(c) => Owns(s, i, c) && s.calls[c].outcome != Pending
    case Closing(c) => c < s.tracker.finished && c < |s.calls| && s.calls[c].owner == i
    case Awaiting(c) => c < |s.calls|
    case Outcome(c) => c < s.tracker.finished
    case Returned(g, Direct) => g <= s.path.generation && s.warmed[g] == 1
    case Returned(g, After(k)) =>
      0 < k <= s.tracker.finished && k <= |s.calls| && LeftBy(s.calls, k) <= g <= s.path.generation
    case Returned(g, Awaited(c)) =>
      && c < s.tracker.finished && c < |s.calls| && s.calls[c].outcome == Opened
      && Left(s.calls[c]) <= g <= s.path.generation
    case Refused(ReopenFailed(c)) => c < s.tracker.finished && c < |s.calls| && s.calls[c].outcome == Failed
    case Refused(RecreateLimit) => UsedUp(s)
    case Refused(RunEnded) => s.ended
  }

  /** The re-open in flight is run by a caller on its way to closing it. */
  ghost predicate Attended(s: System, c: nat)
    requires c < |s.calls|
  {
    var i := s.calls[c].owner;
    && i < |s.callers|
    && (s.tracker.inflight == Some(c) ==>
          || s.callers[i] == Reopening(c) || s.callers[i] == Reopened(c)
          || s.callers[i] == Finishing(c) || (s.callers[i].Warming? && s.callers[i].call == c))
    && (s.tracker.inflight != Some(c) && !s.calls[c].done ==> s.callers[i] == Closing(c))
    && (s.calls[c].done ==> c < s.tracker.finished)
  }

  ghost predicate Inv(s: System) {
    && Counted(s)
    && Chained(s)
    && WarmedOnce(s)
    && (forall c :: 0 <= c < |s.calls| ==> Attended(s, c))
    && (forall i :: 0 <= i < |s.callers| ==> PhaseOk(s, i))
  }

  /** What a step of caller `i` leaves every other caller. */
  ghost predicate Undisturbed(s: System, s': System, i: nat)
  {
    && |s.warmed| == s.path.generation + 1 && |s'.warmed| == s'.path.generation + 1
    && s.tracker.finished <= s'.tracker.finished && |s.calls| <= |s'.calls|
    && s.path.generation <= s'.path.generation && s.path.lost <= s'.path.lost
    && (s.ended ==> s'.ended) && (UsedUp(s) ==> UsedUp(s'))
    && (s'.tracker.inflight == None && s'.tracker.finished == s.tracker.finished ==>
          s.tracker.inflight == None && s'.path.generation == s.path.generation)
    && (forall g :: 0 <= g <= s.path.generation && s.warmed[g] == 1 ==> s'.warmed[g] == 1)
    && (forall c :: 0 <= c < |s.calls| ==> s'.calls[c].owner == s.calls[c].owner && s'.calls[c].base == s.calls[c].base)
    && (forall c :: 0 <= c < |s.calls| && (s.calls[c].owner != i || c < s.tracker.finished) ==>
          s'.calls[c].outcome == s.calls[c].outcome)
    && (s.tracker.inflight.Some? && s.tracker.inflight.value < |s.calls|
        && s.calls[s.tracker.inflight.value].owner != i ==>
          s'.tracker.inflight == s.tracker.inflight && s'.path.generation == s.path.generation)
  }

  lemma OthersKeepTheirPhase(s: System, s': System, i: nat, j: nat)
    requires Counted(s) && Undisturbed(s, s', i)
    requires j < |s.callers| == |s'.callers| && j != i && s'.callers[j] == s.callers[j]
    requires PhaseOk(s, j)
    ensures PhaseOk(s', j)
  {
  }

  /** Generations only grow from one re-open to the next. */
  lemma {:induction false} LeftByGrows(s: System, k: nat, n: nat)
    requires Chained(s) && k <= n <= |s.calls|
    ensures LeftBy(s.calls, k) <= LeftBy(s.calls, n)
    decreases n
  {
    if k < n {
      assert Follows(s.calls, n - 1);
      LeftByGrows(s, k, n - 1);
    }
  }

  lemma PhasesKept(s: System, s': System, i: nat)
    requires Counted(s) && Undisturbed(s, s', i)
    requires i < |s.callers| == |s'.callers| && s'.callers == s.callers[i := s'.callers[i]]
    requires PhaseOk(s', i) && forall j :: 0 <= j < |s.callers| ==> PhaseOk(s, j)
    ensures forall j :: 0 <= j < |s'.callers| ==> PhaseOk(s', j)
  {
    forall j | 0 <= j < |s'.callers| && j != i ensures PhaseOk(s', j) {
      OthersKeepTheirPhase(s, s', i, j);
    }
  }

  /** A step that only moves its caller, neither into nor out of a re-open. */
  lemma CallerMoves(s: System, i: nat, phase: Phase)
    requires Inv(s) && i < |s.callers| && PhaseOk(At(s, i, phase), i)
    requires !s.callers[i].Reopening? && !s.callers[i].Warming? && !s.callers[i].Finishing? && !s.callers[i].Closing?
    requires s.callers[i].Reopened? ==> phase.Warming? && phase.call == s.callers[i].call
    requires !phase.Reopened? && (phase.Warming? ==> s.callers[i].Reopened?)
    ensures Inv(At(s, i, phase))
  {
    var s' := At(s, i, phase);
    assert PhaseOk(s, i);
    forall c | 0 <= c < |s.calls| ensures Attended(s', c) {
      assert Attended(s, c);
    }
    PhasesKept(s, s', i);
    assert Cold(s') == Cold(s);
  }

  lemma ReopenStarts(s: System, i: nat)
    requires Inv(s) && i < |s.callers| && s.callers[i].Looked?
    requires Decided(s.tracker, s.callers[i].finished, s.callers[i].isLost).1.Start?
    ensures Inv(Moved(s, i, Proceed))
  {
    var s' := Moved(s, i, Proceed);
    assert PhaseOk(s, i);
    var c := |s.calls|;
    assert s'.calls[..c] == s.calls;
    forall k | 0 <= k < |s'.calls| ensures Attended(s', k) && Follows(s'.calls, k) {
      if k < c { assert Attended(s, k) && Follows(s.calls, k); }
    }
    PhasesKept(s, s', i);
  }

  lemma ReopenEnds(s: System, i: nat, m: Move)
    requires Inv(s) && CanMove(s, i, m) && s.callers[i].Reopening?
    ensures Inv(Moved(s, i, m))
  {
    var s' := Moved(s, i, m);
    assert PhaseOk(s, i);
    var c := s.callers[i].call;
    assert c == |s.calls| - 1;
    forall k | 0 <= k < |s'.calls| ensures Attended(s', k) && Follows(s'.calls, k) {
      assert Attended(s, k) && Follows(s.calls, k);
    }
    PhasesKept(s, s', i);
  }

  lemma WarmUpEnds(s: System, i: nat)
    requires Inv(s) && CanMove(s, i, Proceed) && s.callers[i].Warming?
    ensures Inv(Moved(s, i, Proceed))
  {
    var s' := Moved(s, i, Proceed);
    assert PhaseOk(s, i);
    var c := s.callers[i].call;
    assert Follows(s.calls, c);
    assert Cold(s) && !Cold(s');
    forall k | 0 <= k < |s.calls| ensures Attended(s', k) {
      assert Attended(s, k);
    }
    PhasesKept(s, s', i);
  }

  lemma ReopenFinishes(s: System, i: nat)
    requires Inv(s) && CanMove(s, i, Proceed) && s.callers[i].Finishing?
    ensures Inv(Moved(s, i, Proceed))
  {
    var s' := Moved(s, i, Proceed);
    assert PhaseOk(s, i);
    assert !Cold(s) && !Cold(s');
    forall k | 0 <= k < |s.calls| ensures Attended(s', k) {
      assert Attended(s, k);
    }
    PhasesKept(s, s', i);
  }

  lemma ReopenCloses(s: System, i: nat)
    requires Inv(s) && CanMove(s, i, Proceed) && s.callers[i].Closing?
    ensures Inv(Moved(s, i, Proceed))
  {
    var s' := Moved(s, i, Proceed);
    assert PhaseOk(s, i);
    forall k | 0 <= k < |s'.calls| ensures Attended(s', k) {
      assert Attended(s, k);
    }
    CloseChained(s, i);
    PhasesKept(s, s', i);
  }

  lemma CloseChained(s: System, i: nat)
    requires Counted(s) && Chained(s) && WarmedOnce(s) && CanMove(s, i, Proceed) && s.callers[i].Closing?
    ensures Chained(Moved(s, i, Proceed)) && WarmedOnce(Moved(s, i, Proceed))
  {
    var s' := Moved(s, i, Proceed);
    forall k | 0 <= k < |s'.calls| ensures Follows(s'.calls, k) {
      assert Follows(s.calls, k);
    }
    assert Cold(s') == Cold(s);
  }

  lemma EnvironmentMoves(s: System, a: Action)
    requires Inv(s) && Enabled(s, a) && !a.Caller?
    ensures Inv(Apply(s, a))
  {
    var s' := Apply(s, a);
    assert Cold(s') == Cold(s);
    forall c | 0 <= c < |s.calls| ensures Attended(s', c) {
      assert Attended(s, c);
    }
    forall j | 0 <= j < |s.callers| ensures PhaseOk(s', j) {
      assert PhaseOk(s, j);
    }
  }

  lemma LookKeepsInv(s: System, i: nat, m: Move)
    requires Inv(s) && CanMove(s, i, m)
    requires s.callers[i].Outside? || s.callers[i].Entered? || s.callers[i].HasClient? || s.callers[i].Looked?
    ensures Inv(Moved(s, i, m))
  {
    assert PhaseOk(s, i);
    if s.callers[i].Looked? && Decided(s.tracker, s.callers[i].finished, s.callers[i].isLost).1.Start? {
      ReopenStarts(s, i);
    } else {
      CallerMoves(s, i, Moved(s, i, m).callers[i]);
    }
  }

  lemma ReadKeepsInv(s: System, i: nat, m: Move)
    requires Inv(s) && CanMove(s, i, m)
    requires s.callers[i].Rereading? || s.callers[i].Outcome?
    ensures Inv(Moved(s, i, m))
  {
    assert PhaseOk(s, i);
    LeftByGrows(s, if s.callers[i].Outcome? then s.callers[i].call + 1 else s.callers[i].k, |s.calls|);
    CallerMoves(s, i, Moved(s, i, m).callers[i]);
  }

  lemma WaitKeepsInv(s: System, i: nat, m: Move)
    requires Inv(s) && CanMove(s, i, m)
    requires s.callers[i].Awaiting? || s.callers[i].Reopened? || s.callers[i].Returned? || s.callers[i].Refused?
    ensures Inv(Moved(s, i, m))
  {
    assert PhaseOk(s, i);
    if s.callers[i].Awaiting? {
      assert Attended(s, s.callers[i].call);
    }
    CallerMoves(s, i, Moved(s, i, m).callers[i]);
  }

  lemma StepKeepsInv(s: System, a: Action)
    requires Inv(s) && Enabled(s, a)
    ensures Inv(Apply(s, a))
  {
    match a
    case Caller(i, m) =>
      match s.callers[i] {
        case Reopening(_) => ReopenEnds(s, i, m);
        case Warming(_, _) => WarmUpEnds(s, i);
        case Finishing(_) => ReopenFinishes(s, i);
        case Closing(_) => ReopenCloses(s, i);
        case Rereading(_) => ReadKeepsInv(s, i, m);
        case Outcome(_) => ReadKeepsInv(s, i, m);
        case Outside => LookKeepsInv(s, i, m);
        case Entered(_) => LookKeepsInv(s, i, m);
        case HasClient(_, _) => LookKeepsInv(s, i, m);
        case Looked(_, _, _) => LookKeepsInv(s, i, m);
        case _ => WaitKeepsInv(s, i, m);
      }
    case _ => EnvironmentMoves(s, a);
  }

  lemma InitialInv(s: System)
    requires Initial(s)
    ensures Inv(s)
  {
    assert !Cold(s);
  }

  lemma {:induction false} RunKeepsInv(s: System, actions: seq<Action>, s': System)
    requires Inv(s) && Runs(s, actions, s')
    ensures Inv(s')
    decreases |actions|
  {
    if actions != [] {
      StepKeepsInv(s, actions[0]);
      RunKeepsInv(Apply(s, actions[0]), actions[1..], s');
    }
  }

  ghost predicate Reachable(s: System) {
    exists s0, actions :: Initial(s0) && Runs(s0, actions, s)
  }

  lemma ReachableInv(s: System)
    requires Reachable(s)
    ensures Inv(s)
  {
    var s0, actions :| Initial(s0) && Runs(s0, actions, s);
    InitialInv(s0);
    RunKeepsInv(s0, actions, s);
  }

  // ----- Returned clients, and runs one step longer -----

  /** A client handed out with no re-open around the read is warm.  One handed out
      after `k` re-opens is of a generation no older than the one they left.  One handed
      out by a re-open the caller ran or waited for is handed out only if that re-open
      succeeded, and is the tunnel it opened or one opened since. */
  lemma ReturnedClient(s: System, i: nat)
    requires Reachable(s) && i < |s.callers| && s.callers[i].Returned?
    ensures s.callers[i].gen <= s.path.generation && |s.warmed| == s.path.generation + 1
    ensures s.callers[i].route == Direct ==> s.warmed[s.callers[i].gen] == 1
    ensures s.callers[i].route.After? ==>
      s.callers[i].route.k <= |s.calls| && LeftBy(s.calls, s.callers[i].route.k) <= s.callers[i].gen
    ensures s.callers[i].route.Awaited? ==>
      var c := s.callers[i].route.call;
      c < |s.calls| && s.calls[c].outcome == Opened && 0 < Left(s.calls[c]) <= s.callers[i].gen
  {
    ReachableInv(s);
    assert PhaseOk(s, i);
  }

  lemma {:induction false} RunsOneMore(s: System, actions: seq<Action>, s': System, a: Action)
    requires Runs(s, actions, s') && Enabled(s', a)
    ensures Runs(s, actions + [a], Apply(s', a))
    decreases |actions|
  {
    if actions == [] {
      assert Runs(Apply(s, a), [], Apply(s, a));
    } else {
      RunsOneMore(Apply(s, actions[0]), actions[1..], s', a);
      assert (actions + [a])[1..] == actions[1..] + [a];
    }
  }

  lemma ReachOneMore(s: System, a: Action) returns (s': System)
    requires Reachable(s) && Enabled(s, a)
    ensures Reachable(s') && s' == Apply(s, a)
  {
    var s0, actions :| Initial(s0) && Runs(s0, actions, s);
    RunsOneMore(s0, actions, s, a);
    s' := Apply(s, a);
  }
}
