/** The loads of a run and the slots they hold: a load holds a slot exactly while its
    stage says so, and queues for one exactly while it is in the queue. */
module RunSlots {
  import opened Common
  import opened RetryChain
  import Q = SlotQueue

  /** Where a load is.  It holds a slot only while it asks for a client and fetches. */
  datatype Stage =
    | Ready
    | Sleeping(wake: int)
    | Queued
    | Holding(slot: nat)
    | Fetching(slot: nat, gen: nat)
    | Done(at: int)

  /** One load: where it is, the attempts it has spent, and whether the budget has ever
      shortened a wait it drew or cost it an attempt. */
  datatype LoadState = LoadState(stage: Stage, history: seq<Attempt>, clamped: bool)

  /** The loads after load `i` gives back `slot`, goes on as `load`, and whoever has
      waited longest takes the slot over. */
  function HandedOver(q: Q.Slots, loads: seq<LoadState>, i: nat, load: LoadState): seq<LoadState>
    requires i < |loads|
  {
    var granted := if q.waiting == [] || |loads| <= q.waiting[0].load then loads
                   else loads[q.waiting[0].load := loads[q.waiting[0].load].(stage := Holding(|q.grants|))];
    granted[i := load]
  }

  function SlotOf(stage: Stage): Option<nat> {
    match stage
    case Holding(k) => Some(k)
    case Fetching(k, _) => Some(k)
    case _ => None
  }

  ghost predicate InQueue(q: Q.Slots, load: nat) {
    exists p :: 0 <= p < |q.waiting| && q.waiting[p].load == load
  }

  /** A load that holds a slot holds the one granted to it, and one that queues is in
      the queue. */
  ghost predicate LoadMatches(q: Q.Slots, loads: seq<LoadState>, i: nat)
    requires i < |loads|
  {
    var stage := loads[i].stage;
    && (SlotOf(stage).Some? ==>
          var k := SlotOf(stage).value;
          k < |q.grants| && Q.Active(q.grants[k]) && q.grants[k].load == i)
    && (stage == Queued ==> InQueue(q, i))
  }

  /** A slot that is held is held by the load it was granted to. */
  ghost predicate GrantMatches(q: Q.Slots, loads: seq<LoadState>, k: nat)
    requires k < |q.grants|
  {
    Q.Active(q.grants[k]) ==>
      q.grants[k].load < |loads| && SlotOf(loads[q.grants[k].load].stage) == Some(k)
  }

  ghost predicate WaiterMatches(q: Q.Slots, loads: seq<LoadState>, p: nat)
    requires p < |q.waiting|
  {
    q.waiting[p].load < |loads| && loads[q.waiting[p].load].stage == Queued
  }

  /** The stages of the loads and the slots agree. */
  ghost predicate SlotsMatch(q: Q.Slots, loads: seq<LoadState>) {
    && Q.Shape(q, |loads|)
    && (forall i :: 0 <= i < |loads| ==> LoadMatches(q, loads, i))
    && (forall k :: 0 <= k < |q.grants| ==> GrantMatches(q, loads, k))
    && (forall p :: 0 <= p < |q.waiting| ==> WaiterMatches(q, loads, p))
  }

  predicate Slotless(stage: Stage) {
    stage.Ready? || stage.Sleeping? || stage.Done?
  }

  lemma SlotlessIsIdle(q: Q.Slots, loads: seq<LoadState>, i: nat)
    requires SlotsMatch(q, loads) && i < |loads| && Slotless(loads[i].stage)
    ensures Q.Idle(q, i)
  {
    forall k | 0 <= k < |q.grants| && Q.Active(q.grants[k]) ensures q.grants[k].load != i {
      assert GrantMatches(q, loads, k);
    }
    forall p | 0 <= p < |q.waiting| ensures q.waiting[p].load != i {
      assert WaiterMatches(q, loads, p);
    }
  }

  /** A load moves between stages that hold no slot, or keeps the slot it holds. */
  lemma RelabelMatches(q: Q.Slots, loads: seq<LoadState>, i: nat, load: LoadState)
    requires SlotsMatch(q, loads) && i < |loads|
    requires
      || (Slotless(loads[i].stage) && Slotless(load.stage))
      || (SlotOf(load.stage) == SlotOf(loads[i].stage) && SlotOf(load.stage).Some?)
    ensures SlotsMatch(q, loads[i := load])
  {
    var loads' := loads[i := load];
    forall j | 0 <= j < |loads'| ensures LoadMatches(q, loads', j) {
      assert LoadMatches(q, loads, j);
    }
    forall k | 0 <= k < |q.grants| ensures GrantMatches(q, loads', k) {
      assert GrantMatches(q, loads, k);
    }
    forall p | 0 <= p < |q.waiting| ensures WaiterMatches(q, loads', p) {
      assert WaiterMatches(q, loads, p);
    }
  }

  lemma ArriveMatches(q: Q.Slots, loads: seq<LoadState>, i: nat, now: int)
    requires SlotsMatch(q, loads) && i < |loads| && Slotless(loads[i].stage)
    ensures var stage := if Q.Busy(q) < q.capacity then Holding(|q.grants|) else Queued;
            SlotsMatch(Q.Arrive(q, i, now), loads[i := loads[i].(stage := stage)])
  {
    SlotlessIsIdle(q, loads, i);
    Q.ArriveShape(q, i, now, |loads|);
    var q' := Q.Arrive(q, i, now);
    var loads' := loads[i := loads[i].(stage := if Q.Busy(q) < q.capacity then Holding(|q.grants|) else Queued)];
    forall j | 0 <= j < |loads'| ensures LoadMatches(q', loads', j) {
      assert LoadMatches(q, loads, j);
      if loads'[j].stage == Queued {
        var p: int;
        if j == i { p := |q.waiting|; } else { p :| 0 <= p < |q.waiting| && q.waiting[p].load == j; }
        assert q'.waiting[p].load == j;
      }
    }
    forall k | 0 <= k < |q'.grants| ensures GrantMatches(q', loads', k) {
      if k < |q.grants| { assert GrantMatches(q, loads, k); }
    }
    forall p | 0 <= p < |q'.waiting| ensures WaiterMatches(q', loads', p) {
      if p < |q.waiting| { assert WaiterMatches(q, loads, p); }
    }
  }

  lemma AbandonMatches(q: Q.Slots, loads: seq<LoadState>, i: nat, p: nat, load: LoadState)
    requires SlotsMatch(q, loads) && i < |loads| && p < |q.waiting| && q.waiting[p].load == i
    requires Slotless(load.stage)
    ensures SlotsMatch(Q.Abandon(q, p), loads[i := load])
  {
    Q.AbandonShape(q, p, |loads|);
    var q', loads' := Q.Abandon(q, p), loads[i := load];
    forall j | 0 <= j < |loads'| ensures LoadMatches(q', loads', j) {
      assert LoadMatches(q, loads, j) && WaiterMatches(q, loads, p);
      if loads'[j].stage == Queued {
        var n :| 0 <= n < |q.waiting| && q.waiting[n].load == j;
        assert q'.waiting[if n < p then n else n - 1] == q.waiting[n];
      }
    }
    forall k | 0 <= k < |q'.grants| ensures GrantMatches(q', loads', k) {
      assert GrantMatches(q, loads, k) && WaiterMatches(q, loads, p);
    }
    forall n | 0 <= n < |q'.waiting| ensures WaiterMatches(q', loads', n) {
      var m := if n < p then n else n + 1;
      assert q'.waiting[n] == q.waiting[m] && WaiterMatches(q, loads, m);
    }
  }

  /** What the loads hold once load `i` has given `slot` back and the load that has waited
      longest has taken it over. */
  lemma ReleasedLoads(q: Q.Slots, loads: seq<LoadState>, i: nat, slot: nat, load: LoadState, now: int)
    requires SlotsMatch(q, loads) && i < |loads| && SlotOf(loads[i].stage) == Some(slot) && slot < |q.grants|
    requires LoadMatches(q, loads, i) && Slotless(load.stage)
    ensures var loads' := HandedOver(q, loads, i, load);
            forall j :: 0 <= j < |loads'| ==> LoadMatches(Q.Release(q, slot, now), loads', j)
  {
    var q', loads' := Q.Release(q, slot, now), HandedOver(q, loads, i, load);
    if q.waiting != [] {
      assert WaiterMatches(q, loads, 0);
    }
    forall j | 0 <= j < |loads'| ensures LoadMatches(q', loads', j) {
      assert LoadMatches(q, loads, j);
      if loads'[j].stage == Queued {
        var p :| 0 <= p < |q.waiting| && q.waiting[p].load == j;
        assert p > 0 && q'.waiting[p - 1] == q.waiting[p];
      }
    }
  }

  lemma ReleasedGrants(q: Q.Slots, loads: seq<LoadState>, i: nat, slot: nat, load: LoadState, now: int)
    requires SlotsMatch(q, loads) && i < |loads| && SlotOf(loads[i].stage) == Some(slot) && slot < |q.grants|
    requires LoadMatches(q, loads, i) && Slotless(load.stage)
    ensures var q' := Q.Release(q, slot, now);
            forall k :: 0 <= k < |q'.grants| ==> GrantMatches(q', HandedOver(q, loads, i, load), k)
  {
    var q', loads' := Q.Release(q, slot, now), HandedOver(q, loads, i, load);
    if q.waiting != [] {
      assert WaiterMatches(q, loads, 0);
    }
    forall k | 0 <= k < |q'.grants| ensures GrantMatches(q', loads', k) {
      if k < |q.grants| { assert GrantMatches(q, loads, k); }
    }
  }

  lemma ReleasedWaiters(q: Q.Slots, loads: seq<LoadState>, i: nat, slot: nat, load: LoadState, now: int)
    requires SlotsMatch(q, loads) && i < |loads| && SlotOf(loads[i].stage) == Some(slot) && slot < |q.grants|
    ensures var q' := Q.Release(q, slot, now);
            forall p :: 0 <= p < |q'.waiting| ==> WaiterMatches(q', HandedOver(q, loads, i, load), p)
  {
    var q', loads' := Q.Release(q, slot, now), HandedOver(q, loads, i, load);
    forall p | 0 <= p < |q'.waiting| ensures WaiterMatches(q', loads', p) {
      assert q'.waiting[p] == q.waiting[p + 1] && WaiterMatches(q, loads, p + 1);
    }
  }

  lemma ReleaseMatches(q: Q.Slots, loads: seq<LoadState>, i: nat, slot: nat, load: LoadState, now: int)
    requires SlotsMatch(q, loads) && i < |loads| && SlotOf(loads[i].stage) == Some(slot)
    requires LoadMatches(q, loads, i) && Slotless(load.stage)
    ensures SlotsMatch(Q.Release(q, slot, now), HandedOver(q, loads, i, load))
  {
    Q.ReleaseShape(q, slot, now, |loads|);
    ReleasedLoads(q, loads, i, slot, load, now);
    ReleasedGrants(q, loads, i, slot, load, now);
    ReleasedWaiters(q, loads, i, slot, load, now);
  }
}
