/** Two runs of a lone load under the default settings: one that the default budget covers,
    and one whose first attempt has to re-open the tunnel, which it does not cover. */
module RunExamples {
  import opened Common
  import opened HealthRun
  import opened RetryChain
  import opened RunBudget
  import opened RunSlots
  import C = PathContract
  import P = PathTracker
  import Q = SlotQueue

  // ----- One step more -----

  lemma {:induction false} TimelyOneMore(r0: Run, actions: seq<Action>, r: Run, a: Action)
    requires TimelyRuns(r0, actions, r) && Enabled(r, a) && Timely(r, a)
    ensures TimelyRuns(r0, actions + [a], Apply(r, a))
    decreases |actions|
  {
    if actions == [] {
      assert TimelyRuns(Apply(r, a), [], Apply(r, a));
    } else {
      TimelyOneMore(Apply(r0, actions[0]), actions[1..], r, a);
      assert (actions + [a])[1..] == actions[1..] + [a];
    }
  }

  ghost predicate TimelyReachable(r0: Run, r: Run) {
    exists actions :: TimelyRuns(r0, actions, r)
  }

  lemma ReachOneMore(r0: Run, r: Run, a: Action) returns (r': Run)
    requires TimelyReachable(r0, r) && Enabled(r, a) && Timely(r, a)
    ensures TimelyReachable(r0, r') && r' == Apply(r, a)
  {
    var actions :| TimelyRuns(r0, actions, r);
    TimelyOneMore(r0, actions, r, a);
    r' := Apply(r, a);
  }

  ghost predicate ReachedFrom(r0: Run, r: Run) {
    exists actions :: Runs(r0, actions, r)
  }

  lemma GoOn(r0: Run, r: Run, a: Action) returns (r': Run)
    requires ReachedFrom(r0, r) && Enabled(r, a)
    ensures ReachedFrom(r0, r') && r' == Apply(r, a)
  {
    var actions :| Runs(r0, actions, r);
    RunsOneMore(r0, actions, r, a);
    r' := Apply(r, a);
  }

  // ----- A run the budget covers -----

  const DEFAULTS := Options(0, 0, 0, 0, 0, false, 0)
  const TIMEOUT := 10_000_000_000
  const LONGEST_WAIT := 900_000_000_000

  function LoneRun(now: int, grants: seq<Q.Grant>, path: P.System, load: LoadState): Run {
    Run(DEFAULTS, 3 * TIMEOUT + 2 * LONGEST_WAIT, now, Q.Slots(6, grants, []), path, [load])
  }

  function SoundPath(caller: P.Phase): P.System {
    P.System(P.Tracker(2, None, 0, 0), C.Path(0, {}), [1], [], false, [caller])
  }

  function LoneStart(): Run {
    LoneRun(0, [], SoundPath(P.Outside), LoadState(Ready, [], false))
  }

  lemma DefaultsAre(loads: nat)
    ensures DEFAULTS.Timeout() == TIMEOUT && 3 * DEFAULTS.Mean() == LONGEST_WAIT && DEFAULTS.Slots() == 6
    ensures DEFAULTS.Attempts() == 3
    ensures DEFAULTS.RunBudget(1) == 3 * TIMEOUT + 2 * LONGEST_WAIT && DEFAULTS.WarmUp() == 0
  {
    assert DEFAULTS.Rounds(1) == 1;
  }

  lemma StartIsInitial()
    ensures Initial(LoneStart())
  {
    DefaultsAre(1);
  }

  lemma LoneLoadLooks() returns (r: Run)
    ensures TimelyReachable(LoneStart(), r)
    ensures r == LoneRun(0, [Q.Grant(0, 0, 0, false)], SoundPath(P.HasClient(0, 0)), LoadState(Holding(0), [], false))
  {
    r := LoneStart();
    assert TimelyRuns(r, [], r);
    r := ReachOneMore(LoneStart(), r, Arrive(0));
    r := ReachOneMore(LoneStart(), r, Live(0, P.Proceed));
    r := ReachOneMore(LoneStart(), r, Live(0, P.Proceed));
  }

  lemma LoneLoadHasClient() returns (r: Run)
    ensures TimelyReachable(LoneStart(), r)
    ensures r == LoneRun(0, [Q.Grant(0, 0, 0, false)], SoundPath(P.Returned(0, P.Direct)),
                         LoadState(Holding(0), [], false))
  {
    r := LoneLoadLooks();
    r := ReachOneMore(LoneStart(), r, Live(0, P.Proceed));
    r := ReachOneMore(LoneStart(), r, Live(0, P.Proceed));
  }

  lemma LoneLoadFetches() returns (r: Run)
    ensures TimelyReachable(LoneStart(), r)
    ensures r == LoneRun(0, [Q.Grant(0, 0, 0, false)], SoundPath(P.Outside), LoadState(Fetching(0, 0), [], false))
  {
    r := LoneLoadHasClient();
    r := ReachOneMore(LoneStart(), r, BeginFetch(0));
  }

  /** The conditions the budget is proved under are met by runs that do something: a
      load fetches for as long as one timeout and passes. */
  lemma SomeRunIsTimely()
    ensures exists r0: Run, r: Run ::
      && Initial(r0) && 0 < |r0.loads| && !r0.path.ended
      && r0.o.budget <= 0 && r0.now + r0.o.Budget(|r0.loads|) - r0.o.WarmUp() <= r0.deadline
      && TimelyReachable(r0, r) && r.now == r0.now + r0.o.Timeout()
      && |r.loads| == 1 && r.loads[0].stage.Done? && r.loads[0].history == [Passed]
  {
    var r := LoneLoadFetches();
    DefaultsAre(1);
    r := ReachOneMore(LoneStart(), r, Tick(TIMEOUT));
    r := ReachOneMore(LoneStart(), r, FetchEnds(0, Pass, 0.0));
    assert r.loads[0].history == [Passed];
    StartIsInitial();
  }

  // ----- A run it does not cover -----

  /** The path of a run whose first tunnel was lost and has been replaced. */
  function ReplacedPath(caller: P.Phase): P.System {
    P.System(P.Tracker(2, None, 1, 1), C.Path(1, {0}), [1, 1], [P.Call(0, 0, P.Opened, true)], false, [caller])
  }

  function ReopeningPath(): P.System {
    P.System(P.Tracker(2, Some(0), 1, 0), C.Path(0, {0}), [1], [P.Call(0, 0, P.Pending, false)], false,
             [P.Reopening(0)])
  }

  function LostPath(caller: P.Phase): P.System {
    P.System(P.Tracker(2, None, 0, 0), C.Path(0, {0}), [1], [], false, [caller])
  }

  lemma LateLoadAsks() returns (r: Run)
    ensures ReachedFrom(LoneStart(), r)
    ensures r == LoneRun(0, [Q.Grant(0, 0, 0, false)], LostPath(P.Entered(0)), LoadState(Holding(0), [], false))
  {
    r := LoneStart();
    assert Runs(r, [], r);
    r := GoOn(LoneStart(), r, LoseTunnel(0));
    r := GoOn(LoneStart(), r, Arrive(0));
    r := GoOn(LoneStart(), r, Live(0, P.Proceed));
  }

  lemma LateLoadReopens() returns (r: Run)
    ensures ReachedFrom(LoneStart(), r)
    ensures r == LoneRun(0, [Q.Grant(0, 0, 0, false)], ReopeningPath(), LoadState(Holding(0), [], false))
  {
    r := LateLoadAsks();
    r := GoOn(LoneStart(), r, Live(0, P.Proceed));
    r := GoOn(LoneStart(), r, Live(0, P.Proceed));
    r := GoOn(LoneStart(), r, Live(0, P.Proceed));
  }

  /** The re-open takes as long as one timeout. */
  lemma LateLoadWarms() returns (r: Run)
    ensures ReachedFrom(LoneStart(), r)
    ensures r == LoneRun(TIMEOUT, [Q.Grant(0, 0, 0, false)],
                         P.System(P.Tracker(2, Some(0), 1, 0), C.Path(1, {0}), [1, 0],
                                  [P.Call(0, 0, P.Opened, false)], false, [P.Warming(0, 1)]),
                         LoadState(Holding(0), [], false))
  {
    r := LateLoadReopens();
    r := GoOn(LoneStart(), r, Tick(TIMEOUT));
    r := GoOn(LoneStart(), r, Live(0, P.ReopenSucceeds(false)));
    r := GoOn(LoneStart(), r, Live(0, P.Proceed));
  }

  lemma LateLoadHasWarmed() returns (r: Run)
    ensures ReachedFrom(LoneStart(), r)
    ensures r == LoneRun(TIMEOUT, [Q.Grant(0, 0, 0, false)],
                         P.System(P.Tracker(2, None, 1, 1), C.Path(1, {0}), [1, 1],
                                  [P.Call(0, 0, P.Opened, false)], false, [P.Closing(0)]),
                         LoadState(Holding(0), [], false))
  {
    r := LateLoadWarms();
    r := GoOn(LoneStart(), r, Live(0, P.Proceed));
    r := GoOn(LoneStart(), r, Live(0, P.Proceed));
  }

  lemma LateLoadHasReopened() returns (r: Run)
    ensures ReachedFrom(LoneStart(), r)
    ensures r == LoneRun(TIMEOUT, [Q.Grant(0, 0, 0, false)], ReplacedPath(P.Returned(1, P.Awaited(0))),
                         LoadState(Holding(0), [], false))
  {
    r := LateLoadHasWarmed();
    r := GoOn(LoneStart(), r, Live(0, P.Proceed));
    r := GoOn(LoneStart(), r, Live(0, P.Proceed));
  }

  lemma LateLoadFetches() returns (r: Run)
    ensures ReachedFrom(LoneStart(), r)
    ensures r == LoneRun(2 * TIMEOUT, [Q.Grant(0, 0, 0, false)], ReplacedPath(P.Outside),
                         LoadState(Fetching(0, 1), [], false))
  {
    r := LateLoadHasReopened();
    r := GoOn(LoneStart(), r, BeginFetch(0));
    r := GoOn(LoneStart(), r, Tick(TIMEOUT));
  }

  /** The longest wait it draws is cut by half of the time the re-open took: the other
      half comes off the wait after. */
  lemma LateLoadSleeps() returns (r: Run)
    ensures ReachedFrom(LoneStart(), r)
    ensures r == LoneRun(2 * TIMEOUT, [Q.Grant(0, 0, 0, true)], ReplacedPath(P.Outside),
                         LoadState(Sleeping(2 * TIMEOUT + LONGEST_WAIT - TIMEOUT / 2), [Failed("", false)], true))
  {
    r := LateLoadFetches();
    DefaultsAre(1);
    assert Fitted(DEFAULTS, r.deadline, r.now, 2, 3.0) == Wait(LONGEST_WAIT - TIMEOUT / 2);
    r := GoOn(LoneStart(), r, FetchEnds(0, Fail(""), 3.0));
    assert r.loads[0].history == [Failed("", false)];
  }

  lemma LateLoadWakes() returns (r: Run)
    ensures ReachedFrom(LoneStart(), r)
    ensures var now := 2 * TIMEOUT + LONGEST_WAIT - TIMEOUT / 2;
            r == LoneRun(now, [Q.Grant(0, 0, 0, true), Q.Grant(0, now, now, false)], ReplacedPath(P.Outside),
                         LoadState(Holding(1), [Failed("", false)], true))
  {
    r := LateLoadSleeps();
    r := GoOn(LoneStart(), r, Tick(LONGEST_WAIT - TIMEOUT / 2));
    r := GoOn(LoneStart(), r, Wake(0));
    r := GoOn(LoneStart(), r, Arrive(0));
  }

  lemma LateLoadLooks() returns (r: Run)
    ensures ReachedFrom(LoneStart(), r)
    ensures var now := 2 * TIMEOUT + LONGEST_WAIT - TIMEOUT / 2;
            r == LoneRun(now, [Q.Grant(0, 0, 0, true), Q.Grant(0, now, now, false)],
                         ReplacedPath(P.Looked(1, 1, false)),
                         LoadState(Holding(1), [Failed("", false)], true))
  {
    r := LateLoadWakes();
    r := GoOn(LoneStart(), r, Live(0, P.Proceed));
    r := GoOn(LoneStart(), r, Live(0, P.Proceed));
    r := GoOn(LoneStart(), r, Live(0, P.Proceed));
  }

  lemma LateLoadPasses() returns (r: Run)
    ensures ReachedFrom(LoneStart(), r)
    ensures |r.loads| == 1 && r.loads[0].stage.Done? && r.loads[0].clamped
    ensures r.loads[0].history == [Failed("", false), Passed]
  {
    r := LateLoadLooks();
    r := GoOn(LoneStart(), r, Live(0, P.Proceed));
    r := GoOn(LoneStart(), r, BeginFetch(0));
    r := GoOn(LoneStart(), r, FetchEnds(0, Pass, 0.0));
  }

  /** Re-opening a tunnel is not in the default budget: a load whose first attempt
      re-opens one for as long as a timeout, and then fails within one, has its next wait
      cut short, though the run had all of the default budget. */
  lemma ReopenIsNotBudgeted()
    ensures exists r0: Run, r: Run ::
      && Initial(r0) && !r0.path.ended
      && r0.o.budget <= 0 && r0.deadline == r0.now + r0.o.Budget(|r0.loads|) - r0.o.WarmUp()
      && ReachedFrom(r0, r) && |r.loads| == |r0.loads| == 1 && r.loads[0].stage.Done? && r.loads[0].clamped
  {
    var r := LateLoadPasses();
    DefaultsAre(1);
    StartIsInitial();
  }
}
