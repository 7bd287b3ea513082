/** The schedule behind the default budget: by when a load that has spent so many
    attempts asks for its next slot, if no slot is held for longer than one timeout. */
module RunSchedule {
  import opened Arithmetic
  import opened RetryChain
  import Q = SlotQueue

  /** The longest a request waits for its slot, and the longest it and its fetch take. */
  function SlotWait(o: Options, loads: nat): int
    requires 0 < loads
  {
    (loads - 1) / o.Slots() * o.Timeout()
  }

  function Served(o: Options, loads: nat): int
    requires 0 < loads
  {
    SlotWait(o, loads) + o.Timeout()
  }

  /** One attempt and the longest wait after it. */
  function Lap(o: Options, loads: nat): int
    requires 0 < loads
  {
    Served(o, loads) + 3 * o.Mean()
  }

  /** By when a load that has spent `spent` attempts asks for its next slot. */
  function Due(o: Options, loads: nat, begun: int, spent: nat): int
    requires 0 < loads
  {
    begun + spent * Lap(o, loads)
  }

  /** By when every load is done. */
  function Finish(o: Options, loads: nat, begun: int): int
    requires 0 < loads
  {
    Due(o, loads, begun, o.Attempts() - 1) + Served(o, loads)
  }

  lemma SlotWaitNatural(o: Options, loads: nat)
    requires 0 < loads
    ensures 0 <= SlotWait(o, loads)
    ensures Q.Covers(SlotWait(o, loads), o.Slots(), o.Timeout(), loads)
  {
    QuotientAtLeast(loads - 1, o.Slots(), 0);
    MulNonNegative((loads - 1) / o.Slots(), o.Timeout());
  }

  /** The default budget, warm-up apart, is that finish. */
  lemma BudgetIsFinish(o: Options, loads: nat, begun: int)
    requires 0 < loads
    ensures Finish(o, loads, begun) == begun + o.RunBudget(loads) - o.WarmUp()
  {
    var a, r, t, m := o.Attempts(), o.Rounds(loads), o.Timeout(), o.Mean();
    QuotientOneMore(loads - 1, o.Slots());
    MulStep((loads - 1) / o.Slots(), t);
    assert Served(o, loads) == r * t;
    MulStep(a - 1, r * t);
    assert a * r * t == a * (r * t);
    assert (a - 1) * (r * t + 3 * m) == (a - 1) * (r * t) + (a - 1) * 3 * m;
  }

  lemma DueInOrder(o: Options, loads: nat, begun: int, spent: nat)
    requires 0 < loads && spent < o.Attempts()
    ensures Due(o, loads, begun, spent) + Served(o, loads) <= Finish(o, loads, begun)
    ensures spent + 1 < o.Attempts() ==>
      Due(o, loads, begun, spent) + Served(o, loads) + 3 * o.Mean() == Due(o, loads, begun, spent + 1)
  {
    SlotWaitNatural(o, loads);
    MulOrder(spent, o.Attempts() - 1, Lap(o, loads));
    MulStep(spent, Lap(o, loads));
  }

  /** A wait fitted by the time the attempt before it is due to be served is the wait
      drawn, and ends by the time the next attempt is due. */
  lemma WaitAsDrawn(o: Options, deadline: int, loads: nat, begun: int, now: int, spent: nat, draw: real)
    requires 0 < loads && spent + 1 < o.Attempts() && Finish(o, loads, begun) <= deadline
    requires now <= Due(o, loads, begun, spent) + Served(o, loads)
    ensures Fitted(o, deadline, now, spent + 2, draw) == Wait(RetryDelay(draw, o.Mean()))
    ensures now + RetryDelay(draw, o.Mean()) <= Due(o, loads, begun, spent + 1)
  {
    var left, lap := o.Attempts() - spent - 1, Lap(o, loads);
    SlotWaitNatural(o, loads);
    assert (o.Attempts() - 1) * lap == spent * lap + left * lap;
    MulOrderRight(left, o.Timeout() + 3 * o.Mean(), lap);
    RoomForTheDraw(o, deadline, now, spent + 2, draw);
    RetryDelayRange(draw, o.Mean());
    DueInOrder(o, loads, begun, spent);
  }

  ghost predicate Settled(o: Options, h: seq<Attempt>) {
    |h| == o.Attempts() || (h != [] && !Retryable(h[|h| - 1]))
  }

  /** What is left of the budget when an attempt is `extra` late: the timeout, the longest
      wait and the longest queueing for each attempt remaining. */
  lemma TimeLeft(o: Options, loads: nat, begun: int, spent: nat, left: nat)
    requires 0 < loads && spent + left == o.Attempts() - 1
    ensures Finish(o, loads, begun) - Due(o, loads, begun, spent) - Served(o, loads)
            == left * (o.Timeout() + 3 * o.Mean()) + left * SlotWait(o, loads)
  {
    var lap, cap, w := Lap(o, loads), o.Timeout() + 3 * o.Mean(), SlotWait(o, loads);
    assert lap == cap + w;
    Distribute(left, cap, w);
    Distribute(lap, spent, left);
    assert (o.Attempts() - 1) * lap == lap * (spent + left);
  }

  /** What an attempt can take beyond its schedule, however many loads and attempts there
      are, with `spare` left over from the warm-up: after an attempt that is `extra` late,
      the longest wait is had in full exactly if `extra` is no more than that spare and
      the queueing that the remaining attempts have in the budget. */
  lemma OverrunShortensWait(o: Options, loads: nat, begun: int, spare: nat, spent: nat, extra: nat, draw: real)
    requires 0 < loads && spent + 1 < o.Attempts() && 3.0 <= draw
    ensures var now := Due(o, loads, begun, spent) + Served(o, loads) + extra;
            Fitted(o, Finish(o, loads, begun) + spare, now, spent + 2, draw) == Wait(RetryDelay(draw, o.Mean()))
            <==> extra <= (o.Attempts() - spent - 1) * SlotWait(o, loads) + spare
  {
    var left := o.Attempts() - spent - 1;
    var deadline, now := Finish(o, loads, begun) + spare, Due(o, loads, begun, spent) + Served(o, loads) + extra;
    RetryDelayRange(draw, o.Mean());
    FullWaitExactly(o, deadline, now, spent + 2, draw);
    TimeLeft(o, loads, begun, spent, left);
    assert deadline - now == left * (o.Timeout() + 3 * o.Mean()) + left * SlotWait(o, loads) + spare - extra;
  }
}
