/** What the owner of a probe's tunnels promises: none is leaked, none is closed twice, the
    first close waits for them all, and the generation counts the re-opens that won. */
module TunnelPromises {
  import opened Common
  import opened ProbePath

  /** Each tunnel is closed at most once, and its client is always its own. */
  lemma NeverClosedTwice(s: System)
    requires Reachable(s)
    ensures forall t :: 0 <= t < |s.tunnels| ==> s.tunnels[t].closes <= 1
    ensures s.fields.client == s.fields.tunnel
    ensures !s.fields.closed ==> s.fields.tunnel < |s.tunnels| && s.tunnels[s.fields.tunnel].closes == 0
  {
    ReachableInv(s);
    forall t | 0 <= t < |s.tunnels| ensures s.tunnels[t].closes <= 1 {
      assert TunnelOk(s, t);
    }
    assert TunnelOk(s, s.fields.tunnel);
  }

  /** When the first Close returns, every tunnel ever made current has been closed
      exactly once, and it returns an error exactly when one of those closes failed. */
  lemma FirstCloseJoins(s: System, i: nat)
    requires Reachable(s) && i < |s.threads| && s.threads[i].CloseDone? && s.threads[i].first
    ensures forall t :: t in s.history ==> t < |s.tunnels| && s.tunnels[t].closes == 1
    ensures s.threads[i].errs != [] <==> exists t :: t in s.history && t < |s.tunnels| && s.tunnels[t].failed
    ensures forall t :: t in s.threads[i].errs <==> t in s.history && t < |s.tunnels| && s.tunnels[t].failed
  {
    ReachableInv(s);
    assert ThreadOk(s, i);
    forall t | t in s.history ensures s.tunnels[t].closes == 1 {
      assert TunnelOk(s, t);
    }
    if s.threads[i].errs != [] {
      assert s.threads[i].errs[0] in s.threads[i].errs;
    }
  }

  /** A Reopen that lost the race to a Close has closed the tunnel it opened, exactly
      once, and that tunnel was never current; one that won has made its tunnel current. */
  lemma ReopenOutcome(s: System, i: nat)
    requires Reachable(s) && i < |s.threads| && s.threads[i].ReopenDone?
    ensures s.threads[i].outcome.LostRace? ==>
      var t := s.threads[i].outcome.tunnel;
      s.fields.closed && t < |s.tunnels| && s.tunnels[t].closes == 1 && t !in s.history
    ensures s.threads[i].outcome.Replaced? ==> s.threads[i].outcome.tunnel in s.history
  {
    ReachableInv(s);
    assert ThreadOk(s, i);
    if s.threads[i].outcome.LostRace? {
      assert TunnelOk(s, s.threads[i].outcome.tunnel);
    }
  }

  /** Once every call and retirement has come to its end, no opened tunnel is left open but
      the current one, and that only if the path is not closed. */
  lemma NoTunnelLeaked(s: System)
    requires Reachable(s)
    requires forall i :: 0 <= i < |s.threads| ==>
               s.threads[i].ReopenDone? || s.threads[i].RetireDone? || s.threads[i].CloseDone?
    ensures forall t :: 0 <= t < |s.tunnels| ==>
              s.tunnels[t].closes == if t == s.fields.tunnel && !s.fields.closed then 0 else 1
  {
    ReachableInv(s);
    forall t | 0 <= t < |s.tunnels|
      ensures s.tunnels[t].closes == if t == s.fields.tunnel && !s.fields.closed then 0 else 1
    {
      assert TunnelOk(s, t);
    }
  }

  lemma CountMoved(s: System, i: nat, x: Thread, p: Thread -> bool)
    requires i < |s.threads| && !p(Retiring(if s.threads[i].HasSwapped? then s.threads[i].retired else 0))
    ensures Count(s.threads[i := x] + Spawned(s.threads[i]), p) + (if p(s.threads[i]) then 1 else 0)
            == Count(s.threads, p) + if p(x) then 1 else 0
  {
    CountUpdate(s.threads, i, x, p);
    if s.threads[i].HasSwapped? {
      CountAppend(s.threads[i := x], Retiring(s.threads[i].retired), p);
    } else {
      assert s.threads[i := x] + [] == s.threads[i := x];
    }
  }

  // ----- Calls nothing comes between -----

  function Onward(s: System, i: nat, ok: bool): System {
    if CanStep(s, i) then Stepped(s, i, ok) else s
  }

  /** A call of Reopen on an open path, that no other step comes between: if its tunnel opens,
      the new one is current, the old one is being retired and is still open, and one more
      re-open is counted; if it does not, the path is as it was. */
  lemma ReopenAlone(s: System)
    requires Reachable(s) && !s.fields.closed
    ensures var i, t, before := |s.threads|, |s.tunnels|, s.fields.tunnel;
            var called := Onward(Apply(s, CallReopen), i, true);
            var failed, done := Onward(called, i, false), Onward(Onward(Onward(called, i, true), i, true), i, true);
            && failed.threads == s.threads + [ReopenDone(OpenFailed)] && failed.(threads := s.threads) == s
            && done.threads == s.threads + [ReopenDone(Replaced(t)), Retiring(before)]
            && done.fields == s.fields.(tunnel := t, client := t, reopened := s.fields.reopened + 1,
                                        retiring := s.fields.retiring + 1)
            && |done.tunnels| == t + 1 && done.tunnels[t].closes == 0
            && before < t && done.tunnels[before].closes == s.tunnels[before].closes == 0
            && done.history == s.history + [t]
  {
    ReachableInv(s);
    assert TunnelOk(s, s.fields.tunnel);
    var i, t, before := |s.threads|, |s.tunnels|, s.fields.tunnel;
    var called := Onward(Apply(s, CallReopen), i, true);
    assert called == s.(threads := s.threads + [Opening]);
    var opening := Onward(called, i, true);
    assert opening.threads == s.threads + [HasOpened(t)];
    var swapped := Onward(opening, i, true);
    assert swapped.threads == s.threads + [HasSwapped(before, t)];
  }

  /** A retirement closes the tunnel that was replaced, records a failure to, and is off the
      wait group when it ends. */
  lemma RetirementAlone(s: System, i: nat, ok: bool)
    requires Reachable(s) && i < |s.threads| && s.threads[i].Retiring?
    ensures var t := s.threads[i].tunnel;
            var closed := Onward(s, i, ok);
            var done := if ok then Onward(closed, i, ok) else Onward(Onward(closed, i, ok), i, ok);
            && done.threads[i] == RetireDone && t < |s.tunnels| == |done.tunnels|
            && s.tunnels[t].closes == 0 && done.tunnels[t].closes == 1
            && done.fields == s.fields.(retiring := s.fields.retiring - 1,
                                        errs := s.fields.errs + if ok then [] else [t])
  {
    ReachableInv(s);
    assert ThreadOk(s, i) && TunnelOk(s, s.threads[i].tunnel);
    CountPositive(s.threads, IsRetiring);
  }

  /** A call of Close on an open path with no retirement under way, that no other step comes
      between: it closes the current tunnel, and returns that close's failure, if it failed,
      and those of the retirements before it. */
  lemma CloseAlone(s: System, ok: bool)
    requires Reachable(s) && !s.fields.closed && s.fields.retiring == 0
    ensures var i, t := |s.threads|, s.fields.tunnel;
            var waiting := Onward(Onward(Apply(s, CallClose), i, ok), i, ok);
            var done := Onward(Onward(waiting, i, ok), i, ok);
            && done.threads == s.threads + [CloseDone(true, (if ok then [] else [t]) + s.fields.errs)]
            && done.fields == s.fields.(closed := true)
            && t < |s.tunnels| == |done.tunnels| && s.tunnels[t].closes == 0 && done.tunnels[t].closes == 1
  {
    ReachableInv(s);
    var i, t := |s.threads|, s.fields.tunnel;
    assert TunnelOk(s, t);
    var closing := Onward(Apply(s, CallClose), i, ok);
    assert closing.threads == s.threads + [ClosingCurrent(t)];
    var waiting := Onward(closing, i, ok);
    assert waiting.threads == s.threads + [AwaitRetired(t, !ok)];
    var reading := Onward(waiting, i, ok);
    assert reading.threads == s.threads + [ReadErrors(t, !ok)];
  }

  /** A path that is closed opens no more tunnels but those being opened already, however
      often it is asked to, and makes none current. */
  lemma {:induction false} ClosedOpensNothing(s: System, actions: seq<Action>, s': System)
    requires s.fields.closed && Runs(s, actions, s')
    ensures s'.fields.closed && s'.fields.tunnel == s.fields.tunnel && s'.history == s.history
    ensures |s'.tunnels| + Count(s'.threads, IsOpening) <= |s.tunnels| + Count(s.threads, IsOpening)
    decreases |actions|
  {
    if actions != [] {
      ClosedStepOpensNothing(s, actions[0]);
      ClosedOpensNothing(Apply(s, actions[0]), actions[1..], s');
    }
  }

  predicate IsOpening(t: Thread) {
    t.Opening?
  }

  lemma ClosedStepOpensNothing(s: System, a: Action)
    requires s.fields.closed && Enabled(s, a)
    ensures var s' := Apply(s, a);
            && s'.fields.closed && s'.fields.tunnel == s.fields.tunnel && s'.history == s.history
            && |s'.tunnels| + Count(s'.threads, IsOpening) <= |s.tunnels| + Count(s.threads, IsOpening)
  {
    match a
    case CallReopen => CountAppend(s.threads, ReopenStart, IsOpening);
    case CallClose => CountAppend(s.threads, CloseStart, IsOpening);
    case LoseTunnel(_) =>
    case Step(i, ok) =>
      OneThreadMoves(s, i, ok);
      CountMoved(s, i, Stepped(s, i, ok).threads[i], IsOpening);
  }

  /** A Close waiting for retirements waits for a thread that can step. */
  lemma CloseWaitsForSomeone(s: System, i: nat)
    requires Reachable(s) && i < |s.threads| && s.threads[i].AwaitRetired?
    ensures CanStep(s, i) || exists j: nat :: CanStep(s, j) && IsRetiring(s.threads[j])
  {
    ReachableInv(s);
    CountPositive(s.threads, IsRetiring);
    if 0 < s.fields.retiring {
      var j :| 0 <= j < |s.threads| && IsRetiring(s.threads[j]);
      assert ThreadOk(s, j);
      assert CanStep(s, j);
    }
  }

  // ----- Whole calls -----

  /** The call of Close that closes the path. */
  predicate IsFirstClose(t: Thread) {
    t.ClosingCurrent? || t.AwaitRetired? || t.ReadErrors? || (t.CloseDone? && t.first)
  }

  /** A thread that closes the path is the first to. */
  lemma CloseMoves(s: System, i: nat, ok: bool)
    requires CanStep(s, i)
    ensures var s' := Stepped(s, i, ok);
            && i < |s'.threads| && (s.fields.closed ==> s'.fields.closed)
            && (IsFirstClose(s'.threads[i]) <==> IsFirstClose(s.threads[i]) || (s'.fields.closed && !s.fields.closed))
            && !(IsFirstClose(s.threads[i]) && s'.fields.closed && !s.fields.closed)
  {
  }

  lemma StepCountsCloses(s: System, a: Action)
    requires Enabled(s, a) && Count(s.threads, IsFirstClose) == if s.fields.closed then 1 else 0
    ensures Count(Apply(s, a).threads, IsFirstClose) == if Apply(s, a).fields.closed then 1 else 0
  {
    match a
    case CallReopen => CountAppend(s.threads, ReopenStart, IsFirstClose);
    case CallClose => CountAppend(s.threads, CloseStart, IsFirstClose);
    case LoseTunnel(_) =>
    case Step(i, ok) =>
      OneThreadMoves(s, i, ok);
      CountMoved(s, i, Stepped(s, i, ok).threads[i], IsFirstClose);
      CloseMoves(s, i, ok);
  }

  lemma {:induction false} RunCountsCloses(s: System, actions: seq<Action>, s': System)
    requires Runs(s, actions, s') && Count(s.threads, IsFirstClose) == if s.fields.closed then 1 else 0
    ensures Count(s'.threads, IsFirstClose) == if s'.fields.closed then 1 else 0
    decreases |actions|
  {
    if actions != [] {
      StepCountsCloses(s, actions[0]);
      RunCountsCloses(Apply(s, actions[0]), actions[1..], s');
    }
  }

  /** Exactly one call of Close closes a path that is closed, and any other that has returned
      has returned no error. */
  lemma OneFirstClose(s: System)
    requires Reachable(s)
    ensures Count(s.threads, IsFirstClose) == if s.fields.closed then 1 else 0
    ensures forall i :: 0 <= i < |s.threads| && s.threads[i].CloseDone? && !s.threads[i].first ==>
              s.fields.closed && s.threads[i].errs == []
  {
    var s0, actions :| Initial(s0) && Runs(s0, actions, s);
    RunCountsCloses(s0, actions, s);
    ReachableInv(s);
    forall i | 0 <= i < |s.threads| && s.threads[i].CloseDone? && !s.threads[i].first
      ensures s.fields.closed && s.threads[i].errs == []
    {
      assert ThreadOk(s, i);
    }
  }

  /** A thread's step that neither wins a call nor ends one that has won. */
  lemma OtherStepsWinNothing(s: System, i: nat, ok: bool)
    requires CanStep(s, i) && !s.threads[i].HasSwapped? && !(s.threads[i].HasOpened? && !s.fields.closed)
    ensures Stepped(s, i, ok).fields.reopened == s.fields.reopened && !Won(s.threads[i])
    ensures |Stepped(s, i, ok).threads| == |s.threads| && !Won(Stepped(s, i, ok).threads[i])
    ensures Stepped(s, i, ok).threads == s.threads[i := Stepped(s, i, ok).threads[i]]
  {
  }

  lemma SwapWins(s: System, i: nat, ok: bool)
    requires CanStep(s, i) && s.threads[i].HasOpened? && !s.fields.closed
    ensures Stepped(s, i, ok).fields.reopened == s.fields.reopened + 1
    ensures Stepped(s, i, ok).threads == s.threads[i := HasSwapped(s.fields.tunnel, s.threads[i].tunnel)]
  {
  }

  lemma ThreadStepCountsWins(s: System, i: nat, ok: bool)
    requires CanStep(s, i) && s.fields.reopened == Count(s.threads, Won)
    ensures Stepped(s, i, ok).fields.reopened == Count(Stepped(s, i, ok).threads, Won)
  {
    if s.threads[i].HasSwapped? {
      var done := ReopenDone(Replaced(s.threads[i].tunnel));
      CountUpdate(s.threads, i, done, Won);
      CountAppend(s.threads[i := done], Retiring(s.threads[i].retired), Won);
    } else if s.threads[i].HasOpened? && !s.fields.closed {
      SwapWins(s, i, ok);
      CountUpdate(s.threads, i, HasSwapped(s.fields.tunnel, s.threads[i].tunnel), Won);
    } else {
      OtherStepsWinNothing(s, i, ok);
      CountUpdate(s.threads, i, Stepped(s, i, ok).threads[i], Won);
    }
  }

  lemma StepCountsWins(s: System, a: Action)
    requires Enabled(s, a) && s.fields.reopened == Count(s.threads, Won)
    ensures Apply(s, a).fields.reopened == Count(Apply(s, a).threads, Won)
  {
    match a
    case CallReopen => CountAppend(s.threads, ReopenStart, Won);
    case CallClose => CountAppend(s.threads, CloseStart, Won);
    case LoseTunnel(_) =>
    case Step(i, ok) => ThreadStepCountsWins(s, i, ok);
  }

  lemma {:induction false} RunCountsWins(s: System, actions: seq<Action>, s': System)
    requires Runs(s, actions, s') && s.fields.reopened == Count(s.threads, Won)
    ensures s'.fields.reopened == Count(s'.threads, Won)
    decreases |actions|
  {
    if actions != [] {
      StepCountsWins(s, actions[0]);
      RunCountsWins(Apply(s, actions[0]), actions[1..], s');
    }
  }

  /** In every interleaving the generation is the number of Reopen calls that have won:
      a whole call that succeeds advances it by exactly one, and one that fails, or loses
      the race to a Close, by nothing. */
  lemma GenerationCountsWins(s: System)
    requires Reachable(s)
    ensures Seen(s).generation == Count(s.threads, Won)
  {
    var s0, actions :| Initial(s0) && Runs(s0, actions, s);
    RunCountsWins(s0, actions, s);
  }
}
