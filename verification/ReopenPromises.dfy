/** What the re-open protocol promises its callers, and what it does not. */
module ReopenPromises {
  import opened Common
  import opened PathContract
  import opened PathTracker

  /** A caller is inside the path's Reopen, or warming up what it opened. */
  ghost predicate InReopen(p: Phase) {
    p.Reopening? || p.Reopened? || p.Warming? || p.Finishing?
  }

  /** No two callers are ever in a re-open together, started and finished re-opens differ
      by the one in flight, none is made past the limit, and whenever a caller is in
      the path's Reopen the current tunnel is lost at that moment, although the
      loss was read outside the lock. */
  lemma SingleFlight(s: System)
    requires Reachable(s)
    ensures s.tracker.reopenCount == s.tracker.finished + if s.tracker.inflight.Some? then 1 else 0
    ensures |s.calls| == s.tracker.reopenCount <= s.tracker.limit
    ensures var cs := s.callers;
            forall i, j :: 0 <= i < |cs| && 0 <= j < |cs| && InReopen(cs[i]) && InReopen(cs[j]) ==> i == j
    ensures forall i :: 0 <= i < |s.callers| && InReopen(s.callers[i]) ==> s.tracker.inflight.Some?
    ensures s.tracker.inflight.Some? ==> exists i :: 0 <= i < |s.callers| && InReopen(s.callers[i])
    ensures forall i :: 0 <= i < |s.callers| && s.callers[i].Reopening? ==> s.path.generation in s.path.lost
  {
    ReachableInv(s);
    forall i | 0 <= i < |s.callers| && InReopen(s.callers[i])
      ensures s.tracker.inflight.Some? && Owns(s, i, s.tracker.inflight.value)
    {
      assert PhaseOk(s, i);
    }
    if s.tracker.inflight.Some? {
      assert Attended(s, s.tracker.inflight.value);
      assert InReopen(s.callers[s.calls[s.tracker.inflight.value].owner]);
    }
    forall i | 0 <= i < |s.callers| && s.callers[i].Reopening? ensures s.path.generation in s.path.lost {
      assert PhaseOk(s, i);
    }
  }

  /** Once a re-open's waiters are let go, the tunnel it opened has been warmed up
      exactly once; and no tunnel is ever warmed up twice. */
  lemma WarmedExactlyOnce(s: System, c: nat)
    requires Reachable(s) && c < |s.calls|
    ensures forall g :: 0 <= g < |s.warmed| ==> s.warmed[g] <= 1
    ensures s.calls[c].done && s.calls[c].outcome == Opened ==>
      Left(s.calls[c]) <= s.path.generation && |s.warmed| == s.path.generation + 1 && s.warmed[Left(s.calls[c])] == 1
  {
    ReachableInv(s);
    assert Attended(s, c);
    if s.calls[c].done && s.calls[c].outcome == Opened {
      LeftByGrows(s, c + 1, |s.calls|);
      if Left(s.calls[c]) == s.path.generation && Cold(s) {
        var d := s.tracker.inflight.value;
        assert PhaseOk(s, s.calls[d].owner);
        assert Follows(s.calls, d);
        LeftByGrows(s, c + 1, d);
      }
    }
  }

  /** A caller that reads the current client after a re-open finished reads a warm
      one, or the first tunnel lost before its warm-up, unless another re-open has by
      then swapped the tunnel and is still warming it up: then, and only then, it
      reads a tunnel no warm-up has finished on. */
  lemma ReadAfterReopen(s: System, i: nat)
    requires Reachable(s) && CanMove(s, i, Proceed)
    requires s.callers[i].Rereading? || (s.callers[i].Outcome? && s.calls[s.callers[i].call].outcome == Opened)
    ensures Moved(s, i, Proceed).callers[i].Returned?
    ensures |s.warmed| == s.path.generation + 1
    ensures Moved(s, i, Proceed).callers[i].gen == s.path.generation
    ensures Cold(s) ==> s.warmed[s.path.generation] == 0
    ensures !Cold(s) ==> s.warmed[s.path.generation] == 1 || (s.path.generation == 0 && 0 in s.path.lost)
    ensures s.tracker.inflight == None ==> !Cold(s)
  {
    ReachableInv(s);
    if Cold(s) {
      var d := s.tracker.inflight.value;
      assert PhaseOk(s, s.calls[d].owner);
      assert Follows(s.calls, d);
    }
  }

  /** What a re-open came to is what every caller that ran it or waited for it gets: a client
      exactly if the path's Reopen succeeded, its failure exactly if it failed. */
  lemma OutcomeIsShared(s: System, i: nat, c: nat)
    requires Reachable(s) && i < |s.callers| && s.callers[i] == Outcome(c)
    ensures CanMove(s, i, Proceed) && c < |s.calls| && s.calls[c].outcome != Pending
    ensures Moved(s, i, Proceed).callers[i].Returned? <==> s.calls[c].outcome == Opened
    ensures Moved(s, i, Proceed).callers[i].Refused? <==> s.calls[c].outcome == Failed
    ensures s.calls[c].outcome == Opened ==>
              Moved(s, i, Proceed).callers[i].gen == s.path.generation && Left(s.calls[c]) <= s.path.generation
  {
    ReachableInv(s);
    assert PhaseOk(s, i);
    LeftByGrows(s, c + 1, |s.calls|);
  }

  /** Why a caller has no client: its own re-open, or the one it waited for, failed; or the
      current tunnel is lost for good, every re-open of the run being used up; or the run is
      over. */
  lemma RefusalMeaning(s: System, i: nat)
    requires Reachable(s) && i < |s.callers| && s.callers[i].Refused?
    ensures match s.callers[i].reason
            case ReopenFailed(c) => c < |s.calls| && s.calls[c].outcome == Failed
            case RecreateLimit => |s.calls| == s.tracker.limit && s.path.generation in s.path.lost && NoneInReopen(s)
            case RunEnded => s.ended
  {
    ReachableInv(s);
    assert PhaseOk(s, i);
    SingleFlight(s);
  }

  ghost predicate NoneInReopen(s: System) {
    forall j :: 0 <= j < |s.callers| ==> !InReopen(s.callers[j])
  }

  /** Some caller is running re-open `c`. */
  ghost predicate IsInReopen(s: System, c: nat) {
    c < |s.calls| && s.calls[c].owner < |s.callers| && InReopen(s.callers[s.calls[c].owner])
  }

  /** What a caller that has looked at the path does next, when `before` re-opens had finished
      as it asked: it waits exactly if some caller is in a re-open by now, and for that one; it
      reads again exactly if one has finished in between; and otherwise what it read is the
      current tunnel still: it keeps that one if it was not lost, and if it was, re-opens it
      exactly if the run has a re-open left. */
  lemma DecisionMeaning(s: System, i: nat, before: nat, gen: nat, isLost: bool)
    requires Reachable(s) && i < |s.callers| && s.callers[i] == Looked(before, gen, isLost)
    ensures var next := Moved(s, i, Proceed).callers[i];
            && (next.Awaiting? <==> !NoneInReopen(s))
            && (next.Awaiting? ==> IsInReopen(s, next.call))
            && (NoneInReopen(s) && before != |s.calls| ==> next.Rereading?)
            && (NoneInReopen(s) && before == |s.calls| ==>
                  && gen == s.path.generation
                  && (!isLost ==> next == Returned(gen, Direct))
                  && (isLost && |s.calls| < s.tracker.limit ==> next == Reopening(|s.calls|))
                  && (isLost && |s.calls| == s.tracker.limit ==> next == Refused(RecreateLimit)))
  {
    ReachableInv(s);
    SingleFlight(s);
    assert PhaseOk(s, i);
    if s.tracker.inflight.Some? {
      assert Attended(s, s.tracker.inflight.value);
    }
  }

  /** The run can end at any moment, and a caller that waits for a re-open then need not. */
  lemma RunCanEnd(s: System, i: nat)
    requires i < |s.callers| && s.callers[i].Awaiting?
    ensures Enabled(s, EndRun) && CanMove(Apply(s, EndRun), i, CancelWait)
    ensures Moved(Apply(s, EndRun), i, CancelWait).callers[i] == Refused(RunEnded)
  {
  }

  // ----- Calls nothing comes between -----

  /** The state after one more step of caller `i`. */
  function Onward(s: System, i: nat): System
    requires i < |s.callers|
    ensures |Onward(s, i).callers| == |s.callers|
  {
    if CanMove(s, i, Proceed) then Moved(s, i, Proceed) else s
  }

  /** A call that no other caller's step comes between: with the current tunnel live it is
      returned that one; with it lost it re-opens it, and is refused exactly if the run has
      no re-open left; and with a re-open running it waits for that. */
  lemma CallAlone(s: System, i: nat)
    requires Reachable(s) && i < |s.callers| && s.callers[i].Outside?
    ensures var asked := Onward(s, i);
            var decided := Onward(Onward(Onward(asked, i), i), i);
            && (!NoneInReopen(s) ==> asked.callers[i].Awaiting? && IsInReopen(s, asked.callers[i].call))
            && (NoneInReopen(s) ==> asked.callers[i] == Entered(|s.calls|))
            && (NoneInReopen(s) && s.path.generation !in s.path.lost ==>
                  decided.callers[i] == Returned(s.path.generation, Direct) && decided.path == s.path)
            && (NoneInReopen(s) && s.path.generation in s.path.lost ==>
                  decided.callers[i] ==
                    if |s.calls| < s.tracker.limit then Reopening(|s.calls|) else Refused(RecreateLimit))
  {
    ReachableInv(s);
    SingleFlight(s);
    if s.tracker.inflight.Some? {
      assert Attended(s, s.tracker.inflight.value);
    }
    if NoneInReopen(s) {
      var asked := Onward(s, i);
      assert asked == At(s, i, Entered(s.tracker.finished));
      var read := Onward(asked, i);
      assert read == At(s, i, HasClient(s.tracker.finished, s.path.generation));
      assert Onward(read, i) ==
               At(s, i, Looked(s.tracker.finished, s.path.generation, s.path.generation in s.path.lost));
    }
  }

  /** Nobody runs a re-open, all of them count, and the waiters of the last are let go. */
  ghost predicate AllSettled(s: System, n: nat) {
    && |s.calls| == n == s.tracker.reopenCount == s.tracker.finished
    && s.tracker.inflight == None && 0 < n && s.calls[n - 1].done
  }

  /** The end of a re-open that no other step comes between: it counts as over, its waiters
      are let go, and its caller is told what it came to. */
  lemma EndAlone(s: System, i: nat, c: nat)
    requires i < |s.callers| && s.callers[i] == Finishing(c)
    requires c + 1 == |s.calls| == s.tracker.reopenCount == s.tracker.finished + 1
    ensures var done := Onward(Onward(Onward(s, i), i), i);
            && AllSettled(done, c + 1) && done.path == s.path && done.warmed == s.warmed
            && done.callers[i] == if s.calls[c].outcome == Failed then Refused(ReopenFailed(c))
                                  else Returned(s.path.generation, Awaited(c))
  {
    var closing := Onward(s, i);
    assert closing == At(s, i, Closing(c)).(tracker := Ended(s.tracker));
    var told := Onward(closing, i);
    assert told == At(closing, i, Outcome(c)).(calls := s.calls[c := s.calls[c].(done := true)]);
  }

  /** A re-open that fails, and that no other step comes between: its caller is told so, the
      tunnel and the warm-ups are as they were, and it counts as one of the run's re-opens. */
  lemma FailedReopenAlone(s: System, i: nat)
    requires Reachable(s) && i < |s.callers| && s.callers[i].Reopening?
    ensures CanMove(s, i, ReopenFails)
    ensures var n, done := |s.calls|, Onward(Onward(Onward(Moved(s, i, ReopenFails), i), i), i);
            && AllSettled(done, n) && done.callers[i] == Refused(ReopenFailed(n - 1))
            && done.path == s.path && done.warmed == s.warmed
  {
    ReachableInv(s);
    assert PhaseOk(s, i);
    EndAlone(Moved(s, i, ReopenFails), i, |s.calls| - 1);
  }

  /** One that succeeds: its caller is returned the tunnel it opened, warmed up once. */
  lemma SuccessfulReopenAlone(s: System, i: nat, dead: bool)
    requires Reachable(s) && i < |s.callers| && s.callers[i].Reopening?
    ensures CanMove(s, i, ReopenSucceeds(dead))
    ensures var warmed := Onward(Onward(Moved(s, i, ReopenSucceeds(dead)), i), i);
            var n, done := |s.calls|, Onward(Onward(Onward(warmed, i), i), i);
            && AllSettled(done, n) && done.callers[i] == Returned(s.path.generation + 1, Awaited(n - 1))
            && done.path.generation == s.path.generation + 1 && done.warmed == s.warmed + [1]
  {
    ReachableInv(s);
    assert PhaseOk(s, i);
    var n, swapped := |s.calls|, Moved(s, i, ReopenSucceeds(dead));
    assert Onward(swapped, i) == At(swapped, i, Warming(n - 1, s.path.generation + 1));
    var warmed := Onward(Onward(swapped, i), i);
    assert warmed == At(swapped, i, Finishing(n - 1)).(warmed := s.warmed + [1]);
    EndAlone(warmed, i, n - 1);
  }

  // ----- The path's contract -----

  /** The tracker asks no more of its path than the contract: in one step it is left as
      it was, a tunnel is lost, or one re-open succeeds, and that only for the caller
      inside Reopen. */
  lemma PathFollowsContract(s: System, a: Action)
    requires Enabled(s, a)
    ensures Next(s.path, Apply(s, a).path)
    ensures Apply(s, a).path.generation != s.path.generation ==>
      && a.Caller? && s.callers[a.i].Reopening? && a.move.ReopenSucceeds?
      && Apply(s, a).path == Advance(s.path, a.move.dead)
  {
    match a
    case LoseTunnel(g) => assert Apply(s, a).path == Lose(s.path, g);
    case EndRun =>
    case Caller(i, m) =>
      if s.callers[i].Reopening? && m.ReopenSucceeds? {
        assert Apply(s, a).path == Advance(s.path, m.dead);
      }
  }

  // ----- A waiter can be handed a tunnel that is still cold -----

  lemma FirstCallerReads() returns (s: System)
    ensures Reachable(s)
    ensures s == System(Tracker(2, None, 0, 0), Path(0, {0}), [1], [], false, [HasClient(0, 0), Outside, Outside])
  {
    s := System(Tracker(2, None, 0, 0), Path(0, {}), [1], [], false, [Outside, Outside, Outside]);
    assert Runs(s, [], s);
    s := ReachOneMore(s, LoseTunnel(0));
    s := ReachOneMore(s, Caller(0, Proceed));
    s := ReachOneMore(s, Caller(0, Proceed));
  }

  lemma FirstReopenStarts() returns (s: System)
    ensures Reachable(s)
    ensures s == System(Tracker(2, Some(0), 1, 0), Path(0, {0}), [1], [Call(0, 0, Pending, false)], false,
                        [Reopening(0), Outside, Outside])
  {
    s := FirstCallerReads();
    s := ReachOneMore(s, Caller(0, Proceed));
    s := ReachOneMore(s, Caller(0, Proceed));
  }

  lemma FirstReopenSwaps() returns (s: System)
    ensures Reachable(s)
    ensures s == System(Tracker(2, Some(0), 1, 0), Path(1, {0}), [1, 0], [Call(0, 0, Opened, false)], false,
                        [Reopened(0), Awaiting(0), Outside])
  {
    s := FirstReopenStarts();
    s := ReachOneMore(s, Caller(1, Proceed));
    s := ReachOneMore(s, Caller(0, ReopenSucceeds(false)));
  }

  lemma FirstReopenWarms() returns (s: System)
    ensures Reachable(s)
    ensures s == System(Tracker(2, Some(0), 1, 0), Path(1, {0}), [1, 1], [Call(0, 0, Opened, false)], false,
                        [Finishing(0), Awaiting(0), Outside])
  {
    s := FirstReopenSwaps();
    s := ReachOneMore(s, Caller(0, Proceed));
    s := ReachOneMore(s, Caller(0, Proceed));
  }

  /** The first re-open has finished; caller 1 waited for it and has yet to read the
      client it left.  The new tunnel is then lost too. */
  lemma LostAgain() returns (s: System)
    ensures Reachable(s)
    ensures s == System(Tracker(2, None, 1, 1), Path(1, {0, 1}), [1, 1], [Call(0, 0, Opened, true)], false,
                        [Outcome(0), Outcome(0), Outside])
  {
    s := FirstReopenWarms();
    s := ReachOneMore(s, Caller(0, Proceed));
    s := ReachOneMore(s, Caller(0, Proceed));
    s := ReachOneMore(s, Caller(1, Proceed));
    s := ReachOneMore(s, LoseTunnel(1));
  }

  lemma SecondReopenStarts() returns (s: System)
    ensures Reachable(s)
    ensures s == System(Tracker(2, Some(1), 2, 1), Path(1, {0, 1}), [1, 1],
                        [Call(0, 0, Opened, true), Call(2, 1, Pending, false)], false,
                        [Outcome(0), Outcome(0), Reopening(1)])
  {
    s := LostAgain();
    s := ReachOneMore(s, Caller(2, Proceed));
    s := ReachOneMore(s, Caller(2, Proceed));
    s := ReachOneMore(s, Caller(2, Proceed));
    s := ReachOneMore(s, Caller(2, Proceed));
  }

  /** Not every load is kept off a tunnel whose warm-up has not run: one that waited
      out a re-open reads the current client after a second re-open has swapped it
      and before its warm-up. */
  lemma WaiterGetsColdTunnel()
    ensures exists s: System, i: nat ::
      && Reachable(s) && i < |s.callers| && s.callers[i].Returned?
      && s.callers[i].gen < |s.warmed| && s.warmed[s.callers[i].gen] == 0
      && s.callers[i].gen !in s.path.lost
  {
    var s := SecondReopenStarts();
    s := ReachOneMore(s, Caller(2, ReopenSucceeds(false)));
    s := ReachOneMore(s, Caller(1, Proceed));
    assert s.callers[1] == Returned(2, Awaited(0)) && s.warmed == [1, 1, 0];
  }
}
