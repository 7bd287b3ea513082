/** A run on a budget shorter than its spacing asks for: a load whose first fitted share is
    positive, and whose later attempts each take at most a timeout, loses no attempt. */
module RunTight {
  import opened Common
  import opened HealthRun
  import opened RetryChain
  import opened RunSchedule
  import opened RunSlots

  /** The step with which load `i` spends an attempt. */
  predicate Spends(a: Action, i: nat) {
    (a.NoLive? || a.FetchEnds?) && a.i == i
  }

  /** When load `i`'s wait before its attempt ends, given when its last one did. */
  function Since(r: Run, i: nat, since: int, a: Action): int
    requires i < |r.loads| && Enabled(r, a)
  {
    if Spends(a, i) && Apply(r, a).loads[i].stage.Sleeping? then Apply(r, a).loads[i].stage.wake else since
  }

  /** Load `i`'s attempt, its wait for a slot included, takes at most one timeout, and the
      run's context outlives its deadline. */
  predicate Prompt(r: Run, i: nat, since: int, a: Action) {
    match a
    case Tick(d) => i < |r.loads| && (r.loads[i].stage.Done? || r.now + d <= since + r.o.Timeout())
    case EndRun => r.deadline < r.now
    case _ => true
  }

  ghost predicate PromptRuns(r: Run, i: nat, since: int, actions: seq<Action>, r': Run)
    decreases |actions|
  {
    if actions == [] then r' == r
    else
      && i < |r.loads| && Enabled(r, actions[0]) && Prompt(r, i, since, actions[0])
      && PromptRuns(Apply(r, actions[0]), i, Since(r, i, since, actions[0]), actions[1..], r')
  }

  // ----- One wait -----

  /** Whenever the attempt whose wait ends at `since` is spent, within its timeout, the wait
      before attempt `next` has a share of at least `first`. */
  ghost predicate SharesLeft(o: Options, deadline: int, first: int, since: int, next: nat) {
    next <= o.Attempts() ==>
      forall later :: later <= since + o.Timeout() ==> first <= Share(o, deadline, later, next)
  }

  lemma FitKeepsShares(o: Options, deadline: int, now: int, spent: nat, first: int, draw: real)
    requires 0 < spent < o.Attempts() && 0 < first <= Share(o, deadline, now, spent + 1)
    ensures var fit := Fitted(o, deadline, now, spent + 1, draw);
            && fit.Wait? && Min(first, RetryDelay(draw, o.Mean())) <= fit.delay && 0 <= fit.delay
            && now + fit.delay + o.Timeout() <= deadline
            && SharesLeft(o, deadline, first, now + fit.delay, spent + 2)
  {
    var fit := Fitted(o, deadline, now, spent + 1, draw);
    RetryDelayRange(draw, o.Mean());
    LeavesOneTimeout(o, deadline, now, spent + 1, draw);
    var next := spent + 2;
    if next <= o.Attempts() {
      forall later | later <= now + fit.delay + o.Timeout() ensures first <= Share(o, deadline, later, next) {
        ShareKept(o, deadline, now, later, spent + 1, draw);
      }
    }
  }

  // ----- Every prompt step keeps the shares -----

  ghost predicate InShare(r: Run, i: nat, first: int, since: int) {
    && i < |r.loads| && r.loads[i].history != []
    && match r.loads[i].stage
       case Done(at) => at <= r.deadline && Settled(r.o, r.loads[i].history)
       case _ =>
         && r.now <= since + r.o.Timeout() <= r.deadline && !r.path.ended
         && SharesLeft(r.o, r.deadline, first, since, |r.loads[i].history| + 2)
  }

  /** The load's next stage, fitted with a share of at least `first`. */
  lemma NextInShare(r: Run, load: LoadState, a: Attempt, draw: real, first: int)
    requires HistoryOk(r.o, load) && !load.stage.Done?
    requires 0 < first && r.now <= r.deadline
    requires |load.history| + 2 <= r.o.Attempts() ==> first <= Share(r.o, r.deadline, r.now, |load.history| + 2)
    ensures var next := Next(r, load, load.history + [a], draw);
            && next.history == load.history + [a]
            && match next.stage
               case Done(at) => at <= r.deadline && Settled(r.o, next.history)
               case Sleeping(wake) =>
                 && Min(first, RetryDelay(draw, r.o.Mean())) <= wake - r.now
                 && r.now <= wake && wake + r.o.Timeout() <= r.deadline
                 && SharesLeft(r.o, r.deadline, first, wake, |next.history| + 2)
               case _ => false
  {
    var h := load.history + [a];
    if Retryable(a) && |h| < r.o.Attempts() {
      FitKeepsShares(r.o, r.deadline, r.now, |h|, first, draw);
    }
  }

  lemma SpendInShare(r: Run, i: nat, a: Action, first: int, since: int)
    requires Inv(r) && Enabled(r, a) && Spends(a, i) && !r.path.ended
    requires 0 < first && r.now <= r.deadline
    requires |r.loads[i].history| + 2 <= r.o.Attempts() ==>
               first <= Share(r.o, r.deadline, r.now, |r.loads[i].history| + 2)
    ensures InShare(Apply(r, a), i, first, Since(r, i, since, a))
    ensures var load := Apply(r, a).loads[i];
            load.stage.Sleeping? ==> Min(first, RetryDelay(a.draw, r.o.Mean())) <= load.stage.wake - r.now
  {
    assert HistoryOk(r.o, r.loads[i]);
    var made := if a.NoLive? then NoTunnel(a.err) else Made(Client(a.fetch, r.loads[i].stage.gen in r.path.path.lost));
    NextInShare(r, r.loads[i], made, a.draw, first);
  }

  /** Every other step leaves the load's attempts as they are, and ends it only if the run's
      context has ended. */
  lemma OtherStepsSpendNothing(r: Run, i: nat, a: Action)
    requires i < |r.loads| && Enabled(r, a) && !Spends(a, i)
    ensures Apply(r, a).loads[i].history == r.loads[i].history
    ensures Apply(r, a).path.ended == (r.path.ended || a.EndRun?)
    ensures Apply(r, a).loads[i].stage.Done? && !r.loads[i].stage.Done? ==> r.path.ended
    ensures r.loads[i].stage.Done? && !(exists k :: 0 <= k < |r.slots.waiting| && r.slots.waiting[k].load == i) ==>
              Apply(r, a).loads[i].stage == r.loads[i].stage
  {
  }

  lemma StepInShare(r: Run, i: nat, first: int, since: int, a: Action)
    requires Inv(r) && Enabled(r, a) && Prompt(r, i, since, a)
    requires 0 < first && InShare(r, i, first, since)
    ensures InShare(Apply(r, a), i, first, Since(r, i, since, a))
  {
    if Spends(a, i) {
      SpendInShare(r, i, a, first, since);
    } else {
      OtherStepsSpendNothing(r, i, a);
      if k :| 0 <= k < |r.slots.waiting| && r.slots.waiting[k].load == i {
        assert WaiterMatches(r.slots, r.loads, k);
      }
    }
  }

  lemma {:induction false} RunInShare(r: Run, i: nat, first: int, since: int, actions: seq<Action>, r': Run)
    requires Inv(r) && PromptRuns(r, i, since, actions, r')
    requires 0 < first && InShare(r, i, first, since)
    ensures Inv(r') && exists since' :: InShare(r', i, first, since')
    ensures r'.deadline == r.deadline && r'.o == r.o
    decreases |actions|
  {
    if actions != [] {
      StepKeepsInv(r, actions[0]);
      StepInShare(r, i, first, since, actions[0]);
      RunInShare(Apply(r, actions[0]), i, first, Since(r, i, since, actions[0]), actions[1..], r');
    }
  }

  // ----- What that comes to -----

  /** Load `i` spends its first attempt, in a run that is not over, and has a positive share
      of what is left of the budget. */
  ghost predicate StartsTight(r: Run, i: nat, a: Action) {
    && Enabled(r, a) && Spends(a, i) && r.loads[i].history == [] && !r.path.ended
    && 2 <= r.o.Attempts() && 0 < Share(r.o, r.deadline, r.now, 2)
  }

  lemma TightStart(r: Run, i: nat, a: Action)
    requires Inv(r) && StartsTight(r, i, a)
    ensures InShare(Apply(r, a), i, Share(r.o, r.deadline, r.now, 2), Since(r, i, r.now, a))
  {
    LeavesOneTimeout(r.o, r.deadline, r.now, 2, 0.0);
    RetryDelayRange(0.0, r.o.Mean());
    SpendInShare(r, i, a, Share(r.o, r.deadline, r.now, 2), r.now);
  }

  lemma TightRunInShare(r: Run, i: nat, a: Action, actions: seq<Action>, r': Run) returns (since: int)
    requires Inv(r) && StartsTight(r, i, a)
    requires PromptRuns(Apply(r, a), i, Since(r, i, r.now, a), actions, r')
    ensures Inv(r') && r'.o == r.o && r'.deadline == r.deadline
    ensures InShare(r', i, Share(r.o, r.deadline, r.now, 2), since)
  {
    var start, from := Apply(r, a), Since(r, i, r.now, a);
    assert start.o == r.o && start.deadline == r.deadline;
    TightStart(r, i, a);
    StepKeepsInv(r, a);
    RunInShare(start, i, Share(r.o, r.deadline, r.now, 2), from, actions, r');
    since :| InShare(r', i, Share(r.o, r.deadline, r.now, 2), since);
  }

  /** If the first share a load is fitted is positive, and each later attempt of it takes at
      most a timeout, its wait for a slot included, then whatever the other loads do, none of
      its attempts is lost: it is done only once an attempt passed or failed TLS or all of
      them were spent, and that before the deadline. */
  lemma TightRunLosesNothing(r: Run, i: nat, a: Action, actions: seq<Action>, r': Run)
    requires Inv(r) && StartsTight(r, i, a)
    requires PromptRuns(Apply(r, a), i, Since(r, i, r.now, a), actions, r')
    ensures i < |r'.loads|
    ensures r'.loads[i].stage.Done? ==> r'.loads[i].stage.at <= r.deadline && Settled(r.o, r'.loads[i].history)
    ensures !r'.loads[i].stage.Done? ==> r'.now <= r.deadline && !r'.path.ended
  {
    var _ := TightRunInShare(r, i, a, actions, r');
  }

  /** Nor is any later wait cut below that first share. */
  lemma TightRunWaits(r: Run, i: nat, a: Action, actions: seq<Action>, r': Run, b: Action)
    requires Inv(r) && StartsTight(r, i, a)
    requires PromptRuns(Apply(r, a), i, Since(r, i, r.now, a), actions, r')
    requires Enabled(r', b) && Spends(b, i)
    ensures var load := Apply(r', b).loads[i];
            load.stage.Sleeping? ==>
              Min(Share(r.o, r.deadline, r.now, 2), RetryDelay(b.draw, r.o.Mean())) <= load.stage.wake - r'.now
  {
    var since := TightRunInShare(r, i, a, actions, r');
    SpendInShare(r', i, b, Share(r.o, r.deadline, r.now, 2), since);
  }

  /** A load whose first share is not positive, that drew some wait and whose first attempt
      settled nothing, is given up there. */
  lemma NoShareGivesUp(r: Run, i: nat, a: Action)
    requires Inv(r) && Enabled(r, a) && Spends(a, i) && r.loads[i].history == []
    requires 2 <= r.o.Attempts() && Share(r.o, r.deadline, r.now, 2) <= 0
    requires 0 < RetryDelay(a.draw, r.o.Mean())
    ensures Apply(r, a).loads[i].stage == Done(r.now) && |Apply(r, a).loads[i].history| <= 1
  {
  }
}
