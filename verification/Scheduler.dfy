/** A pass: its loop, its probes and its semaphore as a step system, and the cache of recent
    successes that it shares with other passes. */
module Scheduler {
  import opened Common

  // ----- The cache -----

  /** A provider was probed successfully within `ttl`. */
  predicate Recent(cache: map<string, int>, ttl: int, id: string, now: int) {
    id in cache && now - cache[id] < ttl
  }

  function Pruned(cache: map<string, int>, ttl: int, now: int): map<string, int> {
    map id | id in cache && now - cache[id] < ttl :: cache[id]
  }

  class Scheduler {
    const concurrency: int
    const cacheTtl: int
    var probed: map<string, int>

    constructor (concurrency: int, cacheTtl: int)
      ensures this.concurrency == concurrency && this.cacheTtl == cacheTtl && probed == map[]
    {
      this.concurrency, this.cacheTtl := concurrency, cacheTtl;
      probed := map[];
    }

    method RecentlyProbed(id: string, now: int) returns (yes: bool)
      ensures yes == Recent(probed, cacheTtl, id, now)
    {
      if id !in probed {
        return false;
      }
      yes := now - probed[id] < cacheTtl;
    }

    method MarkProbed(id: string, now: int)
      modifies this
      ensures probed == old(probed)[id := now]
    {
      probed := probed[id := now];
    }

    method Prune(now: int)
      modifies this
      ensures probed == Pruned(old(probed), cacheTtl, now)
    {
      var ids := probed.Keys;
      while ids != {}
        invariant ids <= probed.Keys <= old(probed).Keys
        invariant forall id :: id in probed ==> probed[id] == old(probed)[id]
        invariant forall id :: id in old(probed) && id !in probed ==> cacheTtl <= now - old(probed)[id]
        invariant forall id :: id in probed && id !in ids ==> now - probed[id] < cacheTtl
        decreases |ids|
      {
        var id :| id in ids;
        ids := ids - {id};
        if cacheTtl <= now - probed[id] {
          probed := probed - {id};
        }
      }
    }
  }

  /** What happens to a cache over many passes: a prune at the start of each, a mark
      after each successful probe, a question before each provider. */
  datatype Op = Prune(at: int) | Mark(id: string, at: int) | Ask(id: string, at: int)

  /** The cache after some of that, if it is pruned or if it never is. */
  function CacheAfter(cache: map<string, int>, ttl: int, ops: seq<Op>, prunes: bool): map<string, int> {
    if ops == [] then cache
    else
      var before := CacheAfter(cache, ttl, ops[..|ops| - 1], prunes);
      match ops[|ops| - 1]
      case Prune(at) => if prunes then Pruned(before, ttl, at) else before
      case Mark(id, at) => before[id := at]
      case Ask(_, _) => before
  }

  /** The answers given. */
  function Answers(cache: map<string, int>, ttl: int, ops: seq<Op>, prunes: bool): seq<bool> {
    if ops == [] then []
    else
      var n := |ops| - 1;
      Answers(cache, ttl, ops[..n], prunes)
      + if ops[n].Ask? then [Recent(CacheAfter(cache, ttl, ops[..n], prunes), ttl, ops[n].id, ops[n].at)] else []
  }

  /** When a provider was last probed successfully. */
  function LastMark(cache: map<string, int>, ops: seq<Op>, id: string): Option<int> {
    if ops == [] then (if id in cache then Some(cache[id]) else None)
    else
      var op := ops[|ops| - 1];
      if op.Mark? && op.id == id then Some(op.at) else LastMark(cache, ops[..|ops| - 1], id)
  }

  ghost predicate MarksAfter(ops: seq<Op>, p: nat, id: string) {
    exists q :: p < q < |ops| && ops[q].Mark? && ops[q].id == id
  }

  /** The `p`th event is a prune, after the last mark of `id`, by which that mark was out
      of date. */
  ghost predicate EvictedAt(ops: seq<Op>, p: nat, ttl: int, id: string, marked: int)
    requires p < |ops|
  {
    ops[p].Prune? && ttl <= ops[p].at - marked && !MarksAfter(ops, p, id)
  }

  ghost predicate Evicted(cache: map<string, int>, ttl: int, ops: seq<Op>, id: string) {
    && LastMark(cache, ops, id).Some?
    && exists p :: 0 <= p < |ops| && EvictedAt(ops, p, ttl, id, LastMark(cache, ops, id).value)
  }

  lemma OneMoreEvent(cache: map<string, int>, ttl: int, ops: seq<Op>, op: Op, id: string)
    ensures LastMark(cache, ops + [op], id) == if op.Mark? && op.id == id then Some(op.at) else LastMark(cache, ops, id)
    ensures Evicted(cache, ttl, ops + [op], id) <==>
              && !(op.Mark? && op.id == id)
              && (Evicted(cache, ttl, ops, id)
                  || (op.Prune? && LastMark(cache, ops, id).Some? && ttl <= op.at - LastMark(cache, ops, id).value))
  {
    var all, n := ops + [op], |ops|;
    assert all[..n] == ops && all[n] == op;
    if op.Mark? && op.id == id {
      forall p | 0 <= p < |all| ensures !EvictedAt(all, p, ttl, id, op.at) {
        assert p < n ==> MarksAfter(all, p, id);
      }
    } else {
      forall p | 0 <= p < n ensures MarksAfter(all, p, id) <==> MarksAfter(ops, p, id) {
        MarksAfterMore(ops, op, p, id);
      }
      LaterEviction(cache, ttl, ops, op, id);
    }
  }

  lemma MarksAfterMore(ops: seq<Op>, op: Op, p: nat, id: string)
    requires p < |ops| && !(op.Mark? && op.id == id)
    ensures MarksAfter(ops + [op], p, id) <==> MarksAfter(ops, p, id)
  {
    var all := ops + [op];
    if MarksAfter(ops, p, id) {
      var q :| p < q < |ops| && ops[q].Mark? && ops[q].id == id;
      assert all[q] == ops[q];
    }
  }

  lemma LaterEviction(cache: map<string, int>, ttl: int, ops: seq<Op>, op: Op, id: string)
    requires !(op.Mark? && op.id == id) && LastMark(cache, ops + [op], id) == LastMark(cache, ops, id)
    requires forall p :: 0 <= p < |ops| ==> (MarksAfter(ops + [op], p, id) <==> MarksAfter(ops, p, id))
    ensures Evicted(cache, ttl, ops + [op], id) <==>
              || Evicted(cache, ttl, ops, id)
              || (op.Prune? && LastMark(cache, ops, id).Some? && ttl <= op.at - LastMark(cache, ops, id).value)
  {
    var all, n := ops + [op], |ops|;
    if LastMark(cache, ops, id).Some? {
      var m := LastMark(cache, ops, id).value;
      forall p | 0 <= p < n ensures EvictedAt(all, p, ttl, id, m) <==> EvictedAt(ops, p, ttl, id, m) {
        assert all[p] == ops[p];
      }
      assert EvictedAt(all, n, ttl, id, m) <==> op.Prune? && ttl <= op.at - m;
    }
  }

  /** What a cache holds: of one never pruned every provider's last mark, of one that is
      pruned those that have not been evicted since. */
  ghost predicate Holds(cache: map<string, int>, ttl: int, ops: seq<Op>, prunes: bool, id: string) {
    var now, last := CacheAfter(cache, ttl, ops, prunes), LastMark(cache, ops, id);
    && (id in now <==> last.Some? && !(prunes && Evicted(cache, ttl, ops, id)))
    && (id in now ==> now[id] == last.value)
  }

  lemma {:induction false} CacheHolds(cache: map<string, int>, ttl: int, ops: seq<Op>, prunes: bool, id: string)
    ensures Holds(cache, ttl, ops, prunes, id)
  {
    if ops != [] {
      var n := |ops| - 1;
      CacheHolds(cache, ttl, ops[..n], prunes, id);
      OneMoreEvent(cache, ttl, ops[..n], ops[n], id);
      assert ops == ops[..n] + [ops[n]];
    }
  }

  /** The `k`th event asks after a provider last probed within the window, and evicted all
      the same: by a prune that was later on the clock than this question is. */
  ghost predicate Misled(cache: map<string, int>, ttl: int, ops: seq<Op>, k: nat)
    requires k < |ops|
  {
    && ops[k].Ask?
    && Evicted(cache, ttl, ops[..k], ops[k].id)
    && ops[k].at - LastMark(cache, ops[..k], ops[k].id).value < ttl
  }

  lemma {:induction false} AsManyAnswers(cache: map<string, int>, ttl: int, ops: seq<Op>)
    ensures |Answers(cache, ttl, ops, true)| == |Answers(cache, ttl, ops, false)|
  {
    if ops != [] {
      AsManyAnswers(cache, ttl, ops[..|ops| - 1]);
    }
  }

  lemma LastAnswer(cache: map<string, int>, ttl: int, ops: seq<Op>, id: string, at: int)
    ensures Recent(CacheAfter(cache, ttl, ops, true), ttl, id, at) ==
              Recent(CacheAfter(cache, ttl, ops, false), ttl, id, at)
            <==> !(Evicted(cache, ttl, ops, id) && at - LastMark(cache, ops, id).value < ttl)
  {
    CacheHolds(cache, ttl, ops, true, id);
    CacheHolds(cache, ttl, ops, false, id);
  }

  lemma SnocEqual(a: seq<bool>, b: seq<bool>, x: bool, y: bool)
    requires |a| == |b|
    ensures a + [x] == b + [y] <==> a == b && x == y
  {
    if a + [x] == b + [y] {
      assert (a + [x])[..|a|] == a && (b + [y])[..|b|] == b;
      assert (a + [x])[|a|] == x && (b + [y])[|b|] == y;
    }
  }

  ghost predicate NeverMisled(cache: map<string, int>, ttl: int, ops: seq<Op>) {
    forall k :: 0 <= k < |ops| ==> !Misled(cache, ttl, ops, k)
  }

  lemma MisledBefore(cache: map<string, int>, ttl: int, ops: seq<Op>)
    requires ops != []
    ensures NeverMisled(cache, ttl, ops) <==>
              NeverMisled(cache, ttl, ops[..|ops| - 1]) && !Misled(cache, ttl, ops, |ops| - 1)
  {
    var n := |ops| - 1;
    forall k | 0 <= k < n ensures Misled(cache, ttl, ops, k) <==> Misled(cache, ttl, ops[..n], k) {
      assert ops[..n][..k] == ops[..k];
    }
  }

  /** Exactly when pruning changes no decision: a pruned cache skips just the providers one
      never pruned would, if and only if no question is asked about a provider whose last
      mark is within the window then, though a prune since found it out of date. */
  lemma {:induction false} PruningChangesNothingExactly(cache: map<string, int>, ttl: int, ops: seq<Op>)
    ensures Answers(cache, ttl, ops, true) == Answers(cache, ttl, ops, false) <==> NeverMisled(cache, ttl, ops)
  {
    if ops != [] {
      var n := |ops| - 1;
      var pruned, full := Answers(cache, ttl, ops[..n], true), Answers(cache, ttl, ops[..n], false);
      PruningChangesNothingExactly(cache, ttl, ops[..n]);
      AsManyAnswers(cache, ttl, ops[..n]);
      MisledBefore(cache, ttl, ops);
      if ops[n].Ask? {
        LastAnswer(cache, ttl, ops[..n], ops[n].id, ops[n].at);
        SnocEqual(pruned, full, Recent(CacheAfter(cache, ttl, ops[..n], true), ttl, ops[n].id, ops[n].at),
                  Recent(CacheAfter(cache, ttl, ops[..n], false), ttl, ops[n].id, ops[n].at));
      } else {
        assert pruned + [] == pruned && full + [] == full;
      }
    }
  }

  /** No question is asked at an earlier time than a prune made before it. */
  ghost predicate AskedAfterPrunes(ops: seq<Op>) {
    forall p, k :: 0 <= p < k < |ops| && ops[p].Prune? && ops[k].Ask? ==> ops[p].at <= ops[k].at
  }

  /** On a clock that never goes back pruning changes no decision, over any number of
      passes. */
  lemma PruningChangesNothing(cache: map<string, int>, ttl: int, ops: seq<Op>)
    requires AskedAfterPrunes(ops)
    ensures Answers(cache, ttl, ops, true) == Answers(cache, ttl, ops, false)
  {
    PruningChangesNothingExactly(cache, ttl, ops);
  }

  /** A clock that goes back can make it: a provider evicted by a prune is probed again
      although its last probe is within the window. */
  lemma PruningNeedsTheClock(id: string, ttl: int)
    requires 1 < ttl
    ensures var ops := [Mark(id, 0), Prune(ttl), Ask(id, 1)];
            Answers(map[], ttl, ops, true) != Answers(map[], ttl, ops, false)
  {
    var ops := [Mark(id, 0), Prune(ttl), Ask(id, 1)];
    assert ops[..2] == [Mark(id, 0)] + [Prune(ttl)] && [Mark(id, 0)] == [] + [Mark(id, 0)];
    OneMoreEvent(map[], ttl, [], Mark(id, 0), id);
    OneMoreEvent(map[], ttl, [Mark(id, 0)], Prune(ttl), id);
    assert Misled(map[], ttl, ops, 2);
    PruningChangesNothingExactly(map[], ttl, ops);
  }

  // ----- One pass -----

  datatype Outcome = Unknown | Success | Failure(notMeasured: bool)

  datatype Step = Spawned | Probing | Tallying | Marking | Releasing | Leaving | Gone

  datatype Probe = Probe(id: string, step: Step, outcome: Outcome)

  datatype Summary = Summary(attempted: nat, submitted: nat, skipped: nat, failed: nat, notMeasured: nat)

  /** Where the pass's loop is: yet to prune the cache, at provider `i`, waiting to probe it,
      or past the last. */
  datatype Stage = Starting | Looping(i: nat) | Acquiring(i: nat) | Joining | Returned

  /** One pass: `slots` of the semaphore are taken, and `group` is the wait group. */
  datatype Pass = Pass(providers: seq<string>, concurrency: int, ttl: int, ended: bool, now: int,
                       cache: map<string, int>,
                       stage: Stage, seen: set<string>, slots: nat, group: nat, probes: seq<Probe>, sum: Summary)

  datatype Action = Tick(d: nat) | EndContext | Loop | Cancel | Advance(p: nat, outcome: Outcome)

  function Capacity(p: Pass): int {
    if p.concurrency < 1 then 1 else p.concurrency
  }

  /** The rest of the batch is skipped: the context has ended. */
  function SkipRest(p: Pass, i: nat): Pass {
    p.(sum := p.sum.(skipped := p.sum.skipped + if i <= |p.providers| then |p.providers| - i else 0), stage := Joining)
  }

  function SkipOne(p: Pass, i: nat): Pass {
    p.(sum := p.sum.(skipped := p.sum.skipped + 1), stage := Looping(i + 1))
  }

  predicate Enabled(p: Pass, a: Action) {
    match a
    case Tick(_) => true
    case EndContext => true
    case Loop =>
      (match p.stage
       case Starting => true
       case Looping(i) => true
       case Acquiring(i) => p.slots < Capacity(p) && i < |p.providers|
       case Joining => p.group == 0
       case Returned => false)
    case Cancel => p.stage.Acquiring? && p.ended
    case Advance(n, outcome) =>
      && n < |p.probes| && p.probes[n].step != Gone
      && (p.probes[n].step == Probing ==> outcome != Unknown)
      && (p.probes[n].step == Releasing ==> 0 < p.slots)
      && (p.probes[n].step == Leaving ==> 0 < p.group)
  }

  /** The loop meets its next provider: one seen before in the batch is skipped, and so
      is one probed of late; a context that has ended skips all that are left. */
  function Met(p: Pass, i: nat): Pass {
    if |p.providers| <= i then p.(stage := Joining)
    else
      var id := p.providers[i];
      if id in p.seen then SkipOne(p, i)
      else
        var q := p.(seen := p.seen + {id});
        if p.ended then SkipRest(q, i)
        else if Recent(p.cache, p.ttl, id, p.now) then SkipOne(q, i)
        else q.(stage := Acquiring(i))
  }

  function Looped(p: Pass): Pass
    requires Enabled(p, Loop)
  {
    match p.stage
    case Starting => p.(cache := Pruned(p.cache, p.ttl, p.now), stage := Looping(0))
    case Looping(i) => Met(p, i)
    case Acquiring(i) =>
      p.(slots := p.slots + 1, group := p.group + 1, probes := p.probes + [Probe(p.providers[i], Spawned, Unknown)],
         stage := Looping(i + 1))
    case Joining => p.(stage := Returned)
  }

  function Tallied(sum: Summary, outcome: Outcome): Summary {
    match outcome
    case Success => sum.(submitted := sum.submitted + 1)
    case Failure(notMeasured) =>
      sum.(failed := sum.failed + 1, notMeasured := sum.notMeasured + if notMeasured then 1 else 0)
    case Unknown => sum
  }

  function AtStep(p: Pass, n: nat, step: Step): Pass
    requires n < |p.probes|
  {
    p.(probes := p.probes[n := p.probes[n].(step := step)])
  }

  function Advanced(p: Pass, n: nat, outcome: Outcome): Pass
    requires Enabled(p, Advance(n, outcome))
  {
    match p.probes[n].step
    case Spawned => AtStep(p, n, Probing).(sum := p.sum.(attempted := p.sum.attempted + 1))
    case Probing => p.(probes := p.probes[n := Probe(p.probes[n].id, Tallying, outcome)])
    case Tallying =>
      var next := if p.probes[n].outcome == Success then Marking else Releasing;
      AtStep(p, n, next).(sum := Tallied(p.sum, p.probes[n].outcome))
    case Marking => AtStep(p, n, Releasing).(cache := p.cache[p.probes[n].id := p.now])
    case Releasing => AtStep(p, n, Leaving).(slots := p.slots - 1)
    case Leaving => AtStep(p, n, Gone).(group := p.group - 1)
    case Gone => p
  }

  function Apply(p: Pass, a: Action): Pass
    requires Enabled(p, a)
  {
    match a
    case Tick(d) => p.(now := p.now + d)
    case EndContext => p.(ended := true)
    case Loop => Looped(p)
    case Cancel => SkipRest(p, p.stage.i)
    case Advance(n, outcome) => Advanced(p, n, outcome)
  }

  ghost predicate Initial(p: Pass) {
    && p.stage == Starting && p.seen == {} && p.slots == p.group == 0 && p.probes == []
    && p.sum == Summary(0, 0, 0, 0, 0)
  }

  ghost predicate Runs(p: Pass, actions: seq<Action>, p': Pass)
    decreases |actions|
  {
    if actions == [] then p' == p
    else Enabled(p, actions[0]) && Runs(Apply(p, actions[0]), actions[1..], p')
  }

  ghost predicate Reachable(p: Pass) {
    exists p0, actions :: Initial(p0) && Runs(p0, actions, p)
  }

  // ----- What every step keeps -----

  predicate HasSlot(x: Probe) { x.step != Leaving && x.step != Gone }
  predicate Here(x: Probe) { x.step != Gone }
  predicate Attempted(x: Probe) { x.step != Spawned }
  predicate Counted(x: Probe) { x.step == Marking || x.step == Releasing || x.step == Leaving || x.step == Gone }
  predicate Submitted(x: Probe) { Counted(x) && x.outcome == Success }
  predicate Failed(x: Probe) { Counted(x) && x.outcome.Failure? }
  predicate NotMeasured(x: Probe) { Counted(x) && x.outcome == Failure(true) }
  predicate InProbe(x: Probe) { x.step == Probing }

  /** How many providers the loop has dealt with. */
  function Dealt(p: Pass): nat {
    match p.stage
    case Starting => 0
    case Looping(i) => i
    case Acquiring(i) => i
    case _ => |p.providers|
  }

  ghost predicate CountersOk(p: Pass) {
    && p.slots == Count(p.probes, HasSlot) <= Capacity(p)
    && p.group == Count(p.probes, Here)
    && p.sum.attempted == Count(p.probes, Attempted)
    && p.sum.submitted == Count(p.probes, Submitted)
    && p.sum.failed == Count(p.probes, Failed)
    && p.sum.notMeasured == Count(p.probes, NotMeasured)
    && p.sum.skipped + |p.probes| == Dealt(p) <= |p.providers|
    && (p.stage.Acquiring? ==> p.stage.i < |p.providers|)
    && (p.stage.Returned? ==> p.group == 0)
  }

  ghost predicate ProbeOk(p: Pass, n: nat)
    requires n < |p.probes|
  {
    && p.probes[n].id in p.seen
    && (p.stage.Acquiring? && p.stage.i < |p.providers| ==> p.probes[n].id != p.providers[p.stage.i])
    && (p.probes[n].outcome == Unknown <==> p.probes[n].step == Spawned || p.probes[n].step == Probing)
    && (p.probes[n].step == Marking ==> p.probes[n].outcome == Success)
    && (forall m :: 0 <= m < n ==> p.probes[m].id != p.probes[n].id)
  }

  ghost predicate Inv(p: Pass) {
    && CountersOk(p)
    && (p.stage.Acquiring? ==> p.providers[p.stage.i] in p.seen)
    && forall n :: 0 <= n < |p.probes| ==> ProbeOk(p, n)
  }

  lemma CountProbe(probes: seq<Probe>, n: nat, x: Probe)
    requires n < |probes|
    ensures var probes', was := probes[n := x], probes[n];
            && Count(probes', HasSlot) + (if HasSlot(was) then 1 else 0) ==
              Count(probes, HasSlot) + (if HasSlot(x) then 1 else 0)
            && Count(probes', Here) + (if Here(was) then 1 else 0) == Count(probes, Here) + (if Here(x) then 1 else 0)
            && Count(probes', Attempted) + (if Attempted(was) then 1 else 0) ==
              Count(probes, Attempted) + (if Attempted(x) then 1 else 0)
            && Count(probes', Submitted) + (if Submitted(was) then 1 else 0) ==
              Count(probes, Submitted) + (if Submitted(x) then 1 else 0)
            && Count(probes', Failed) + (if Failed(was) then 1 else 0) ==
              Count(probes, Failed) + (if Failed(x) then 1 else 0)
            && Count(probes', NotMeasured) + (if NotMeasured(was) then 1 else 0) ==
              Count(probes, NotMeasured) + (if NotMeasured(x) then 1 else 0)
  {
    CountUpdate(probes, n, x, HasSlot);
    CountUpdate(probes, n, x, Here);
    CountUpdate(probes, n, x, Attempted);
    CountUpdate(probes, n, x, Submitted);
    CountUpdate(probes, n, x, Failed);
    CountUpdate(probes, n, x, NotMeasured);
  }

  /** The loop moves on and no probe changes. */
  lemma LoopMovesOn(p: Pass, p': Pass)
    requires Inv(p) && p'.probes == p.probes && p.seen <= p'.seen && CountersOk(p')
    requires p'.stage.Acquiring? ==> p'.providers[p'.stage.i] in p'.seen && p'.providers[p'.stage.i] !in p.seen
    ensures Inv(p')
  {
    forall n | 0 <= n < |p'.probes| ensures ProbeOk(p', n) {
      assert ProbeOk(p, n);
    }
  }

  lemma MetKeepsInv(p: Pass)
    requires Inv(p) && p.stage.Looping?
    ensures Inv(Met(p, p.stage.i))
  {
    LoopMovesOn(p, Met(p, p.stage.i));
  }

  lemma AcquireKeepsInv(p: Pass)
    requires Inv(p) && Enabled(p, Loop) && p.stage.Acquiring?
    ensures Inv(Looped(p))
  {
    var p', x := Looped(p), Probe(p.providers[p.stage.i], Spawned, Unknown);
    CountAppend(p.probes, x, HasSlot);
    CountAppend(p.probes, x, Here);
    CountAppend(p.probes, x, Attempted);
    CountAppend(p.probes, x, Submitted);
    CountAppend(p.probes, x, Failed);
    CountAppend(p.probes, x, NotMeasured);
    forall n | 0 <= n < |p'.probes| ensures ProbeOk(p', n) {
      if n < |p.probes| {
        assert ProbeOk(p, n);
      } else {
        forall m | 0 <= m < n ensures p'.probes[m].id != x.id {
          assert ProbeOk(p, m);
        }
      }
    }
  }

  lemma ProbeCounters(p: Pass, n: nat, outcome: Outcome)
    requires Inv(p) && Enabled(p, Advance(n, outcome)) && p.probes[n].step != Tallying
    ensures CountersOk(Advanced(p, n, outcome))
  {
    assert ProbeOk(p, n);
    CountProbe(p.probes, n, Advanced(p, n, outcome).probes[n]);
  }

  lemma TallyCounters(p: Pass, n: nat, outcome: Outcome)
    requires Inv(p) && Enabled(p, Advance(n, outcome)) && p.probes[n].step == Tallying
    ensures CountersOk(Advanced(p, n, outcome))
  {
    assert ProbeOk(p, n);
    CountProbe(p.probes, n, Advanced(p, n, outcome).probes[n]);
  }

  lemma ProbesKept(p: Pass, p': Pass, n: nat)
    requires Inv(p) && n < |p.probes| == |p'.probes|
    requires p'.probes == p.probes[n := p'.probes[n]] && p'.probes[n].id == p.probes[n].id
    requires p'.seen == p.seen && p'.stage == p.stage && p'.providers == p.providers
    requires p'.probes[n].outcome == Unknown <==> p'.probes[n].step == Spawned || p'.probes[n].step == Probing
    requires p'.probes[n].step == Marking ==> p'.probes[n].outcome == Success
    ensures forall m :: 0 <= m < |p'.probes| ==> ProbeOk(p', m)
  {
    forall m | 0 <= m < |p'.probes| ensures ProbeOk(p', m) {
      assert ProbeOk(p, m);
    }
  }

  lemma ProbeKeepsInv(p: Pass, n: nat, outcome: Outcome)
    requires Inv(p) && Enabled(p, Advance(n, outcome))
    ensures Inv(Advanced(p, n, outcome))
  {
    var p' := Advanced(p, n, outcome);
    if p.probes[n].step == Tallying { TallyCounters(p, n, outcome); } else { ProbeCounters(p, n, outcome); }
    assert ProbeOk(p, n);
    ProbesKept(p, p', n);
  }

  lemma StepKeepsInv(p: Pass, a: Action)
    requires Inv(p) && Enabled(p, a)
    ensures Inv(Apply(p, a))
  {
    match a
    case Advance(n, outcome) => ProbeKeepsInv(p, n, outcome);
    case Loop =>
      if p.stage.Looping? {
        MetKeepsInv(p);
      } else if p.stage.Acquiring? {
        AcquireKeepsInv(p);
      } else {
        LoopMovesOn(p, Looped(p));
      }
    case Cancel => LoopMovesOn(p, Apply(p, a));
    case _ =>
      forall m | 0 <= m < |p.probes| ensures ProbeOk(Apply(p, a), m) {
        assert ProbeOk(p, m);
      }
  }

  lemma {:induction false} RunKeepsInv(p: Pass, actions: seq<Action>, p': Pass)
    requires Inv(p) && Runs(p, actions, p')
    ensures Inv(p') && p'.providers == p.providers && p'.concurrency == p.concurrency
    decreases |actions|
  {
    if actions != [] {
      StepKeepsInv(p, actions[0]);
      RunKeepsInv(Apply(p, actions[0]), actions[1..], p');
    }
  }

  lemma ReachableInv(p: Pass)
    requires Reachable(p)
    ensures Inv(p)
  {
    var p0, actions :| Initial(p0) && Runs(p0, actions, p);
    RunKeepsInv(p0, actions, p);
  }

  // ----- The promises -----

  lemma {:induction false} CountNested(probes: seq<Probe>)
    ensures Count(probes, Submitted) + Count(probes, Failed) <= Count(probes, Attempted) <= |probes|
    ensures Count(probes, NotMeasured) <= Count(probes, Failed)
    ensures Count(probes, InProbe) <= Count(probes, HasSlot)
  {
    if probes != [] {
      CountNested(probes[..|probes| - 1]);
    }
  }

  predicate HasSucceeded(x: Probe) { x.outcome == Success }
  predicate MeasuredNothing(x: Probe) { x.outcome == Failure(true) }

  lemma {:induction false} CountAll(probes: seq<Probe>)
    requires forall n :: 0 <= n < |probes| ==> probes[n].step == Gone && probes[n].outcome != Unknown
    ensures Count(probes, Submitted) + Count(probes, Failed) == Count(probes, Attempted) == |probes|
    ensures Count(probes, Submitted) == Count(probes, HasSucceeded)
    ensures Count(probes, NotMeasured) == Count(probes, MeasuredNothing)
  {
    if probes != [] {
      CountAll(probes[..|probes| - 1]);
    }
  }

  /** Over any batch, duplicates included, and whenever it is cancelled: every provider is
      attempted or skipped, every attempt is submitted, those that succeeded, or failed, and
      a probe that measured nothing is a failed one. */
  lemma PassAddsUp(p: Pass)
    requires Reachable(p) && p.stage.Returned?
    ensures p.sum.attempted + p.sum.skipped == |p.providers|
    ensures p.sum.submitted + p.sum.failed == p.sum.attempted
    ensures p.sum.notMeasured <= p.sum.failed
    ensures p.sum.attempted == |p.probes| && p.sum.submitted == Count(p.probes, HasSucceeded)
    ensures p.sum.notMeasured == Count(p.probes, MeasuredNothing)
    ensures p.slots == 0
  {
    ReachableInv(p);
    CountPositive(p.probes, Here);
    CountPositive(p.probes, HasSlot);
    forall n | 0 <= n < |p.probes| ensures p.probes[n].step == Gone && p.probes[n].outcome != Unknown {
      assert ProbeOk(p, n);
    }
    CountAll(p.probes);
    CountNested(p.probes);
  }

  /** Each provider is probed at most once in a pass, and no more probes are in flight
      than the concurrency allows. */
  lemma ProbedOnce(p: Pass)
    requires Reachable(p)
    ensures forall m, n :: 0 <= m < n < |p.probes| ==> p.probes[m].id != p.probes[n].id
    ensures Count(p.probes, InProbe) <= p.slots <= Max(1, p.concurrency)
  {
    ReachableInv(p);
    CountNested(p.probes);
    forall m, n | 0 <= m < n < |p.probes| ensures p.probes[m].id != p.probes[n].id {
      assert ProbeOk(p, n);
    }
  }

  /** The loop waits for a probe to end only while as many hold a slot as the concurrency
      allows, at least one. */
  lemma WaitsOnlyWhenFull(p: Pass)
    requires Inv(p) && p.stage.Acquiring? && !Enabled(p, Loop)
    ensures Count(p.probes, HasSlot) == Max(1, p.concurrency)
  {
  }

  /** A pass is never stuck: until it returns, its loop or one of its probes can step. */
  lemma PassNeverStuck(p: Pass)
    requires Inv(p) && !p.stage.Returned?
    ensures exists a :: Enabled(p, a) && (a.Loop? || a.Advance?)
  {
    if !Enabled(p, Loop) {
      CountPositive(p.probes, Here);
      CountPositive(p.probes, HasSlot);
      var n :| 0 <= n < |p.probes| && Here(p.probes[n]);
      assert Enabled(p, Advance(n, Success));
    }
  }
}
