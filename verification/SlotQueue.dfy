/** A run's concurrency slots: a Go channel of fixed capacity used as a semaphore.

    A send to a full channel queues its sender, and a receive hands the slot it
    frees straight to the sender that has waited longest: slots are granted first
    come, first served.  The queue keeps the history of its grants, with the
    instant each was asked for and made; the instants are what the bound on how
    long one request can take is proved from. */
module SlotQueue {
  import opened Arithmetic
  import opened Common

  /** A slot handed to a load: asked for at `arrival`, held since `start`. */
  datatype Grant = Grant(load: nat, arrival: int, start: int, released: bool)

  /** A load waiting for a slot; `granted` slots had been granted when it arrived. */
  datatype Waiter = Waiter(load: nat, arrival: int, granted: nat)

  datatype Slots = Slots(capacity: nat, grants: seq<Grant>, waiting: seq<Waiter>)

  predicate Active(g: Grant) {
    !g.released
  }

  /** How many slots are held. */
  function Busy(q: Slots): nat {
    Count(q.grants, Active)
  }

  // ----- Operations -----

  function Arrive(q: Slots, load: nat, now: int): Slots {
    if Busy(q) < q.capacity then
      q.(grants := q.grants + [Grant(load, now, now, false)])
    else
      q.(waiting := q.waiting + [Waiter(load, now, |q.grants|)])
  }

  /** Gives slot `k` back; the longest waiting load gets it. */
  function Release(q: Slots, k: nat, now: int): Slots
    requires k < |q.grants|
  {
    var freed := q.grants[k := q.grants[k].(released := true)];
    if q.waiting == [] then
      q.(grants := freed)
    else
      var w := q.waiting[0];
      q.(grants := freed + [Grant(w.load, w.arrival, now, false)], waiting := q.waiting[1..])
  }

  /** A waiting load gives up: its run ended first. */
  function Abandon(q: Slots, p: nat): Slots
    requires p < |q.waiting|
  {
    q.(waiting := q.waiting[..p] + q.waiting[p + 1..])
  }

  // ----- What every operation keeps -----

  ghost predicate HoldersDistinct(gs: seq<Grant>) {
    forall i, j :: 0 <= i < j < |gs| && Active(gs[i]) && Active(gs[j]) ==> gs[i].load != gs[j].load
  }

  /** Each of `loads` loads has at most one slot or one place in the queue, and a
      load waits only while every slot is held. */
  ghost predicate Shape(q: Slots, loads: nat) {
    && 0 < q.capacity
    && Busy(q) <= q.capacity
    && (q.waiting != [] ==> Busy(q) == q.capacity)
    && HoldersDistinct(q.grants)
    && (forall i, j :: 0 <= i < j < |q.waiting| ==> q.waiting[i].load != q.waiting[j].load)
    && (forall k, p :: 0 <= k < |q.grants| && 0 <= p < |q.waiting| && Active(q.grants[k]) ==>
          q.grants[k].load != q.waiting[p].load)
    && (forall k :: 0 <= k < |q.grants| ==> q.grants[k].load < loads)
    && (forall p :: 0 <= p < |q.waiting| ==> q.waiting[p].load < loads)
  }

  ghost predicate Idle(q: Slots, load: nat) {
    && (forall k :: 0 <= k < |q.grants| && Active(q.grants[k]) ==> q.grants[k].load != load)
    && (forall p :: 0 <= p < |q.waiting| ==> q.waiting[p].load != load)
  }

  lemma GrantedShape(q: Slots, g: Grant, loads: nat)
    requires Shape(q, loads) && Idle(q, g.load) && g.load < loads && Active(g) && Busy(q) < q.capacity
    ensures Shape(q.(grants := q.grants + [g]), loads)
  {
    CountAppend(q.grants, g, Active);
    OneMoreHolder(q.grants, g);
    assert q.waiting == [];
  }

  lemma QueuedShape(q: Slots, w: Waiter, loads: nat)
    requires Shape(q, loads) && Idle(q, w.load) && w.load < loads && Busy(q) == q.capacity
    ensures Shape(q.(waiting := q.waiting + [w]), loads)
  {
  }

  lemma ArriveShape(q: Slots, load: nat, now: int, loads: nat)
    requires Shape(q, loads) && Idle(q, load) && load < loads
    ensures Shape(Arrive(q, load, now), loads)
  {
    if Busy(q) < q.capacity {
      GrantedShape(q, Grant(load, now, now, false), loads);
    } else {
      QueuedShape(q, Waiter(load, now, |q.grants|), loads);
    }
  }

  lemma OneMoreHolder(gs: seq<Grant>, g: Grant)
    requires HoldersDistinct(gs) && forall k :: 0 <= k < |gs| && Active(gs[k]) ==> gs[k].load != g.load
    ensures HoldersDistinct(gs + [g])
  {
  }

  lemma ReleaseShape(q: Slots, k: nat, now: int, loads: nat)
    requires Shape(q, loads) && k < |q.grants| && Active(q.grants[k])
    ensures Shape(Release(q, k, now), loads)
    ensures Busy(Release(q, k, now)) == Busy(q) - if q.waiting == [] then 1 else 0
  {
    var freed := q.grants[k := q.grants[k].(released := true)];
    CountUpdate(q.grants, k, q.grants[k].(released := true), Active);
    if q.waiting != [] {
      var w := q.waiting[0];
      CountAppend(freed, Grant(w.load, w.arrival, now, false), Active);
    }
  }

  lemma AbandonShape(q: Slots, p: nat, loads: nat)
    requires Shape(q, loads) && p < |q.waiting|
    ensures Shape(Abandon(q, p), loads)
  {
  }

  // ----- Timing: no slot is held longer than `hold` -----

  /** `wait` covers one `hold` for every whole round of slots that the other
      loads' requests can take up. */
  ghost predicate Covers(wait: nat, capacity: nat, hold: nat, loads: nat) {
    0 < capacity && 0 < loads && (loads - 1) / capacity * hold <= wait
  }

  /** No slot has been, or is, held for more than `hold`. */
  ghost predicate HeldAtMost(gs: seq<Grant>, now: int, hold: nat) {
    forall k :: 0 <= k < |gs| && Active(gs[k]) ==> now <= gs[k].start + hold
  }

  ghost predicate InOrder(gs: seq<Grant>, now: int) {
    && (forall i, j :: 0 <= i < j < |gs| ==> gs[i].start <= gs[j].start)
    && (forall k :: 0 <= k < |gs| ==> gs[k].arrival <= gs[k].start <= now)
  }

  /** A slot is granted at once, or within one `hold` of the grant `capacity`
      grants before it. */
  ghost predicate Paced(gs: seq<Grant>, capacity: nat, hold: nat, k: nat)
    requires k < |gs|
  {
    || gs[k].start == gs[k].arrival
    || (capacity <= k && gs[k].start <= gs[k - capacity].start + hold)
  }

  ghost predicate GrantTimes(q: Slots, now: int, hold: nat, wait: nat) {
    && InOrder(q.grants, now)
    && (forall k :: 0 <= k < |q.grants| ==> q.grants[k].start <= q.grants[k].arrival + wait)
    && (forall k :: 0 <= k < |q.grants| ==> Paced(q.grants, q.capacity, hold, k))
  }

  /** The slots granted when `w` arrived were all granted by then. */
  ghost predicate GrantedAhead(gs: seq<Grant>, w: Waiter) {
    && w.granted <= |gs|
    && forall k :: 0 <= k < w.granted ==> gs[k].start <= w.arrival
  }

  ghost predicate WaiterTimes(q: Slots, now: int, loads: nat) {
    && (forall i, j :: 0 <= i < j < |q.waiting| ==> q.waiting[i].arrival <= q.waiting[j].arrival)
    && (forall p :: 0 <= p < |q.waiting| ==> q.waiting[p].arrival <= now)
    && (forall k, p :: 0 <= k < |q.grants| && 0 <= p < |q.waiting| ==>
          q.grants[k].arrival <= q.waiting[p].arrival)
    && (forall p :: 0 <= p < |q.waiting| ==> GrantedAhead(q.grants, q.waiting[p]))
    && (forall p :: 0 <= p < |q.waiting| ==> |q.grants| + p - q.waiting[p].granted + q.capacity < loads)
  }

  /** What first-come-first-served slots keep while no slot is held for longer
      than `hold`: every grant was made within `wait` of being asked for. */
  ghost predicate Timing(q: Slots, now: int, hold: nat, wait: nat, loads: nat) {
    && HeldAtMost(q.grants, now, hold)
    && GrantTimes(q, now, hold, wait)
    && WaiterTimes(q, now, loads)
  }

  /** Following a grant back `capacity` grants at a time: each such step costs at
      most one `hold`, until it reaches a slot granted by `instant`. */
  lemma {:induction false} GrantChain(gs: seq<Grant>, capacity: nat, hold: nat, r: nat, m: nat, ahead: nat,
                                      instant: int)
    requires forall k :: 0 <= k < |gs| ==> Paced(gs, capacity, hold, k)
    requires r < |gs| && ahead <= |gs| && r - m * capacity < ahead
    requires forall k :: 0 <= k < ahead ==> gs[k].start <= instant
    requires forall k :: 0 <= k < |gs| ==> gs[k].arrival <= instant
    ensures gs[r].start <= instant + m * hold
    decreases m
  {
    assert Paced(gs, capacity, hold, r);
    if m > 0 && r >= capacity {
      MulStep(m - 1, capacity);
      MulStep(m - 1, hold);
      GrantChain(gs, capacity, hold, r - capacity, m - 1, ahead, instant);
    }
  }

  /** While a load waits, one of the slots still held was granted `capacity` or
      more grants ago, so that grant is at most `hold` old. */
  lemma OldestHeld(q: Slots, now: int, hold: nat)
    requires Busy(q) == q.capacity > 0 && InOrder(q.grants, now) && HeldAtMost(q.grants, now, hold)
    ensures q.capacity <= |q.grants|
    ensures now <= q.grants[|q.grants| - q.capacity].start + hold
  {
    CountAtMost(q.grants, Active);
    var recent := |q.grants| - q.capacity + 1;
    CountSplit(q.grants, recent, Active);
    CountAtMost(q.grants[recent..], Active);
    CountPositive(q.grants[..recent], Active);
    var k :| 0 <= k < recent && Active(q.grants[..recent][k]);
    assert q.grants[..recent][k] == q.grants[k];
    if k < recent - 1 {
      assert q.grants[k].start <= q.grants[recent - 1].start;
    }
  }

  /** `m` whole rounds of slots can be granted ahead of a request. */
  lemma RoundsAhead(ahead: nat, capacity: nat, hold: nat, wait: nat, loads: nat) returns (m: nat)
    requires Covers(wait, capacity, hold, loads) && ahead + capacity < loads
    ensures ahead < m * capacity + capacity && m * hold + hold <= wait
  {
    m := ahead / capacity;
    QuotientOneMore(ahead, capacity);
    QuotientOrder(ahead + capacity, loads - 1, capacity);
    MulOrder(m + 1, (loads - 1) / capacity, hold);
    MulStep(m, hold);
  }

  lemma WaitedRounds(q: Slots, now: int, hold: nat, p: nat, m: nat)
    requires 0 < q.capacity == Busy(q) && p < |q.waiting|
    requires HeldAtMost(q.grants, now, hold) && InOrder(q.grants, now) && GrantedAhead(q.grants, q.waiting[p])
    requires forall k :: 0 <= k < |q.grants| ==> Paced(q.grants, q.capacity, hold, k)
    requires forall k :: 0 <= k < |q.grants| ==> q.grants[k].arrival <= q.waiting[p].arrival
    requires |q.grants| - q.waiting[p].granted < m * q.capacity + q.capacity
    ensures now <= q.waiting[p].arrival + m * hold + hold
  {
    var w, n, c := q.waiting[p], |q.grants|, q.capacity;
    OldestHeld(q, now, hold);
    GrantChain(q.grants, c, hold, n - c, m, w.granted, w.arrival);
  }

  /** A load waits for a slot for at most one `hold` per whole round of slots
      ahead of it: every load has at most one request outstanding. */
  lemma WaitBound(q: Slots, now: int, hold: nat, wait: nat, loads: nat, p: nat)
    requires Covers(wait, q.capacity, hold, loads)
    requires Shape(q, loads) && Timing(q, now, hold, wait, loads) && p < |q.waiting|
    ensures now <= q.waiting[p].arrival + wait
  {
    assert GrantedAhead(q.grants, q.waiting[p]);
    var m := RoundsAhead(|q.grants| - q.waiting[p].granted, q.capacity, hold, wait, loads);
    WaitedRounds(q, now, hold, p, m);
  }

  // ----- Every operation keeps Timing -----

  /** The loads that hold a slot. */
  function Holders(gs: seq<Grant>): set<nat> {
    if gs == [] then {}
    else Holders(gs[..|gs| - 1]) + if Active(gs[|gs| - 1]) then {gs[|gs| - 1].load} else {}
  }

  /** The loads in the queue. */
  function Queued(ws: seq<Waiter>): set<nat> {
    if ws == [] then {} else Queued(ws[..|ws| - 1]) + {ws[|ws| - 1].load}
  }

  lemma {:induction false} HolderIndex(gs: seq<Grant>, load: nat) returns (k: nat)
    requires load in Holders(gs)
    ensures k < |gs| && Active(gs[k]) && gs[k].load == load
  {
    var n := |gs| - 1;
    if load in Holders(gs[..n]) {
      k := HolderIndex(gs[..n], load);
    } else {
      k := n;
    }
  }

  lemma {:induction false} QueuedIndex(ws: seq<Waiter>, load: nat) returns (p: nat)
    requires load in Queued(ws)
    ensures p < |ws| && ws[p].load == load
  {
    var n := |ws| - 1;
    if load in Queued(ws[..n]) {
      p := QueuedIndex(ws[..n], load);
    } else {
      p := n;
    }
  }

  lemma {:induction false} HoldersCount(gs: seq<Grant>)
    requires HoldersDistinct(gs)
    ensures |Holders(gs)| == Count(gs, Active)
  {
    if gs != [] {
      var n := |gs| - 1;
      HoldersCount(gs[..n]);
      if Active(gs[n]) && gs[n].load in Holders(gs[..n]) {
        var k := HolderIndex(gs[..n], gs[n].load);
      }
    }
  }

  lemma {:induction false} QueuedCount(ws: seq<Waiter>)
    requires forall i, j :: 0 <= i < j < |ws| ==> ws[i].load != ws[j].load
    ensures |Queued(ws)| == |ws|
  {
    if ws != [] {
      var n := |ws| - 1;
      QueuedCount(ws[..n]);
      if ws[n].load in Queued(ws[..n]) {
        var p := QueuedIndex(ws[..n], ws[n].load);
      }
    }
  }

  /** The loads with a slot or a place in the queue, and one more that has neither,
      are at most `loads`. */
  lemma OutstandingCount(q: Slots, load: nat, loads: nat)
    requires Shape(q, loads) && Idle(q, load) && load < loads
    ensures Busy(q) + |q.waiting| < loads
  {
    var holders, queued := Holders(q.grants), Queued(q.waiting);
    HoldersCount(q.grants);
    QueuedCount(q.waiting);
    forall x | x in holders ensures x < loads && x != load && x !in queued {
      var k := HolderIndex(q.grants, x);
      if x in queued {
        var p := QueuedIndex(q.waiting, x);
      }
    }
    forall x | x in queued ensures x < loads && x != load {
      var p := QueuedIndex(q.waiting, x);
    }
    assert |holders + queued + {load}| == |holders| + |queued| + 1;
    SubsetSize(holders + queued + {load}, Below(loads));
  }

  lemma ArriveTiming(q: Slots, load: nat, now: int, hold: nat, wait: nat, loads: nat)
    requires Shape(q, loads) && Timing(q, now, hold, wait, loads) && Idle(q, load) && load < loads
    ensures Timing(Arrive(q, load, now), now, hold, wait, loads)
  {
    if Busy(q) < q.capacity {
      GrantTimely(q, Grant(load, now, now, false), now, hold, wait);
    } else {
      OutstandingCount(q, load, loads);
      QueueOneMore(q, load, now, loads);
    }
  }

  lemma QueueOneMore(q: Slots, load: nat, now: int, loads: nat)
    requires InOrder(q.grants, now) && WaiterTimes(q, now, loads)
    requires q.capacity + |q.waiting| < loads
    ensures WaiterTimes(q.(waiting := q.waiting + [Waiter(load, now, |q.grants|)]), now, loads)
  {
    var ws := q.waiting + [Waiter(load, now, |q.grants|)];
    forall p | 0 <= p < |ws| ensures GrantedAhead(q.grants, ws[p]) {
      if p < |q.waiting| { assert GrantedAhead(q.grants, q.waiting[p]); }
    }
  }

  /** Giving a slot back changes no instant. */
  lemma FreedTimes(q: Slots, k: nat, now: int, hold: nat, wait: nat)
    requires k < |q.grants|
    requires GrantTimes(q, now, hold, wait) && HeldAtMost(q.grants, now, hold)
    ensures var freed := q.(grants := q.grants[k := q.grants[k].(released := true)]);
            GrantTimes(freed, now, hold, wait) && HeldAtMost(freed.grants, now, hold)
  {
    var gs := q.grants[k := q.grants[k].(released := true)];
    forall i | 0 <= i < |gs| ensures Paced(gs, q.capacity, hold, i) {
      assert Paced(q.grants, q.capacity, hold, i);
    }
  }

  /** A slot granted now, at once or to the load that has waited longest, was
      granted in time. */
  lemma GrantTimely(q: Slots, g: Grant, now: int, hold: nat, wait: nat)
    requires GrantTimes(q, now, hold, wait) && HeldAtMost(q.grants, now, hold)
    requires g.start == now && g.arrival <= now <= g.arrival + wait
    requires
      || g.arrival == now
      || (0 < q.capacity <= |q.grants| && now <= q.grants[|q.grants| - q.capacity].start + hold)
    ensures GrantTimes(q.(grants := q.grants + [g]), now, hold, wait)
    ensures HeldAtMost(q.grants + [g], now, hold)
  {
    var gs := q.grants + [g];
    forall i | 0 <= i < |gs| ensures Paced(gs, q.capacity, hold, i) {
      if i < |q.grants| { assert Paced(q.grants, q.capacity, hold, i); }
    }
  }

  lemma ReleaseTiming(q: Slots, k: nat, now: int, hold: nat, wait: nat, loads: nat)
    requires Covers(wait, q.capacity, hold, loads)
    requires Shape(q, loads) && Timing(q, now, hold, wait, loads)
    requires k < |q.grants| && Active(q.grants[k])
    ensures Timing(Release(q, k, now), now, hold, wait, loads)
  {
    var q' := Release(q, k, now);
    var freed := q.(grants := q.grants[k := q.grants[k].(released := true)]);
    FreedTimes(q, k, now, hold, wait);
    if q.waiting != [] {
      OldestHeld(q, now, hold);
      WaitBound(q, now, hold, wait, loads, 0);
      var w := q.waiting[0];
      GrantTimely(freed, Grant(w.load, w.arrival, now, false), now, hold, wait);
    }
    ReleaseWaiters(q, k, now, loads);
  }

  lemma ReleaseWaiters(q: Slots, k: nat, now: int, loads: nat)
    requires WaiterTimes(q, now, loads) && k < |q.grants|
    ensures WaiterTimes(Release(q, k, now), now, loads)
  {
    if q.waiting != [] {
      var q' := Release(q, k, now);
      assert forall i :: 0 <= i < |q.grants| ==>
        q'.grants[i].start == q.grants[i].start && q'.grants[i].arrival == q.grants[i].arrival;
      assert q'.grants[|q.grants|].arrival == q.waiting[0].arrival;
      forall p | 0 <= p < |q'.waiting| ensures GrantedAhead(q'.grants, q'.waiting[p]) {
        assert GrantedAhead(q.grants, q.waiting[p + 1]);
      }
    }
  }

  lemma TickTiming(q: Slots, now: int, later: int, hold: nat, wait: nat, loads: nat)
    requires Timing(q, now, hold, wait, loads) && now <= later && HeldAtMost(q.grants, later, hold)
    ensures Timing(q, later, hold, wait, loads)
  {
  }
}
