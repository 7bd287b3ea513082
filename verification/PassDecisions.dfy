/** Which providers a pass probes: those it meets for the first time that were not probed of
    late, the passes before it included, until its context ends; and what its probes leave in
    the cache. */
module PassDecisions {
  import opened Common
  import opened Scheduler

  // ----- One provider -----

  /** A provider met for the first time, while the context has not ended, goes on to be probed
      exactly if the cache has no mark of it from within the window; one met before is skipped;
      and once the context has ended all that are left are. */
  lemma MetMeaning(p: Pass)
    requires Inv(p) && p.stage.Looping? && p.stage.i < |p.providers|
    ensures var id, next := p.providers[p.stage.i], Looped(p);
            && next.cache == p.cache && next.probes == p.probes
            && (id in p.seen ==> next.stage == Looping(p.stage.i + 1) && next.seen == p.seen)
            && (id !in p.seen && p.ended ==>
                  next.stage == Joining && next.sum.skipped == p.sum.skipped + |p.providers| - p.stage.i)
            && (id !in p.seen && !p.ended ==>
                  && next.seen == p.seen + {id}
                  && (next.stage == Acquiring(p.stage.i) <==> id !in p.cache || p.ttl <= p.now - p.cache[id])
                  && (next.stage == Looping(p.stage.i + 1) <==> id in p.cache && p.now - p.cache[id] < p.ttl))
  {
  }

  /** The clock can move on and the context end at any moment. */
  lemma ClockAndContext(p: Pass, d: nat)
    ensures Enabled(p, Tick(d)) && Apply(p, Tick(d)).now == p.now + d
    ensures Enabled(p, EndContext) && Apply(p, EndContext).ended
  {
  }

  // ----- A pass as a history of its cache -----

  /** The loop asks the cache about the provider it is at. */
  predicate Asks(p: Pass, a: Action) {
    a.Loop? && p.stage.Looping? && p.stage.i < |p.providers| && p.providers[p.stage.i] !in p.seen && !p.ended
  }

  /** What a step does to the cache or asks of it. */
  function OpsOf(p: Pass, a: Action): seq<Op> {
    if a.Loop? && p.stage.Starting? then [Prune(p.now)]
    else if Asks(p, a) then [Ask(p.providers[p.stage.i], p.now)]
    else if a.Advance? && a.p < |p.probes| && p.probes[a.p].step == Marking then [Mark(p.probes[a.p].id, p.now)]
    else []
  }

  function Ops(p: Pass, actions: seq<Action>): seq<Op>
    decreases |actions|
  {
    if actions == [] || !Enabled(p, actions[0]) then []
    else OpsOf(p, actions[0]) + Ops(Apply(p, actions[0]), actions[1..])
  }

  /** Of each provider asked about, whether it is skipped. */
  function Decision(p: Pass, a: Action): seq<bool>
    requires Enabled(p, a)
  {
    if Asks(p, a) then [!Apply(p, a).stage.Acquiring?] else []
  }

  function Decisions(p: Pass, actions: seq<Action>): seq<bool>
    decreases |actions|
  {
    if actions == [] || !Enabled(p, actions[0]) then []
    else Decision(p, actions[0]) + Decisions(Apply(p, actions[0]), actions[1..])
  }

  /** The cache, and the answers, over one history after another. */
  lemma {:induction false} HistoriesAdd(cache: map<string, int>, ttl: int, a: seq<Op>, b: seq<Op>)
    ensures CacheAfter(cache, ttl, a + b, true) == CacheAfter(CacheAfter(cache, ttl, a, true), ttl, b, true)
    ensures Answers(cache, ttl, a + b, true)
            == Answers(cache, ttl, a, true) + Answers(CacheAfter(cache, ttl, a, true), ttl, b, true)
  {
    if b == [] {
      assert a + b == a;
    } else {
      var n := |b| - 1;
      HistoriesAdd(cache, ttl, a, b[..n]);
      assert (a + b)[..|a + b| - 1] == a + b[..n] && (a + b)[|a + b| - 1] == b[n];
    }
  }

  lemma OneOp(cache: map<string, int>, ttl: int, op: Op)
    ensures CacheAfter(cache, ttl, [op], true) ==
              if op.Prune? then Pruned(cache, ttl, op.at) else if op.Mark? then cache[op.id := op.at] else cache
    ensures Answers(cache, ttl, [op], true) == if op.Ask? then [Recent(cache, ttl, op.id, op.at)] else []
  {
    assert [op][..0] == [];
  }

  lemma StepIsHistory(p: Pass, a: Action)
    requires Inv(p) && Enabled(p, a)
    ensures Apply(p, a).cache == CacheAfter(p.cache, p.ttl, OpsOf(p, a), true)
    ensures Decision(p, a) == Answers(p.cache, p.ttl, OpsOf(p, a), true)
    ensures Apply(p, a).ttl == p.ttl
  {
    if OpsOf(p, a) != [] {
      OneOp(p.cache, p.ttl, OpsOf(p, a)[0]);
    }
  }

  /** The decisions of a pass are the answers to its questions, and the cache it leaves is
      what its prune and its marks make of the one it found. */
  lemma {:induction false} PassIsHistory(p: Pass, actions: seq<Action>, p': Pass)
    requires Inv(p) && Runs(p, actions, p')
    ensures p'.cache == CacheAfter(p.cache, p.ttl, Ops(p, actions), true) && p'.ttl == p.ttl
    ensures Decisions(p, actions) == Answers(p.cache, p.ttl, Ops(p, actions), true)
    decreases |actions|
  {
    if actions != [] {
      var a := actions[0];
      StepKeepsInv(p, a);
      StepIsHistory(p, a);
      PassIsHistory(Apply(p, a), actions[1..], p');
      HistoriesAdd(p.cache, p.ttl, OpsOf(p, a), Ops(Apply(p, a), actions[1..]));
    }
  }

  // ----- Passes one after another -----

  /** One pass, from its start to wherever it got to. */
  datatype Trace = Trace(start: Pass, actions: seq<Action>, end: Pass)

  /** Passes of one scheduler: each finds the cache that the one before left, no earlier. */
  ghost predicate Follow(cache: map<string, int>, ttl: int, now: int, traces: seq<Trace>)
    decreases |traces|
  {
    traces != [] ==>
      var t := traces[0];
      && Initial(t.start) && Runs(t.start, t.actions, t.end)
      && t.start.cache == cache && t.start.ttl == ttl && now <= t.start.now
      && Follow(t.end.cache, ttl, t.end.now, traces[1..])
  }

  function AllOps(traces: seq<Trace>): seq<Op> {
    if traces == [] then [] else Ops(traces[0].start, traces[0].actions) + AllOps(traces[1..])
  }

  function AllDecisions(traces: seq<Trace>): seq<bool> {
    if traces == [] then [] else Decisions(traces[0].start, traces[0].actions) + AllDecisions(traces[1..])
  }

  /** The events are in the order of time, from `from` to `to`. */
  ghost predicate InOrder(ops: seq<Op>, from: int, to: int) {
    && from <= to
    && (forall k :: 0 <= k < |ops| ==> from <= ops[k].at <= to)
    && (forall j, k :: 0 <= j < k < |ops| ==> ops[j].at <= ops[k].at)
  }

  lemma {:induction false} OpsInOrder(p: Pass, actions: seq<Action>, p': Pass)
    requires Runs(p, actions, p')
    ensures InOrder(Ops(p, actions), p.now, p'.now)
    decreases |actions|
  {
    if actions != [] {
      OpsInOrder(Apply(p, actions[0]), actions[1..], p');
      assert Apply(p, actions[0]).now >= p.now;
    }
  }

  lemma JoinInOrder(a: seq<Op>, b: seq<Op>, from: int, mid: int, later: int, to: int)
    requires InOrder(a, from, mid) && InOrder(b, later, to) && mid <= later
    ensures InOrder(a + b, from, to)
  {
  }

  lemma {:induction false} PassesAreHistory(cache: map<string, int>, ttl: int, now: int, traces: seq<Trace>)
    requires Follow(cache, ttl, now, traces)
    ensures AllDecisions(traces) == Answers(cache, ttl, AllOps(traces), true)
    ensures exists to :: InOrder(AllOps(traces), now, to)
    decreases |traces|
  {
    if traces == [] {
      assert InOrder(AllOps(traces), now, now);
    } else {
      var t := traces[0];
      assert Runs(t.start, [], t.start);
      ReachableInv(t.start);
      PassIsHistory(t.start, t.actions, t.end);
      OpsInOrder(t.start, t.actions, t.end);
      PassesAreHistory(t.end.cache, ttl, t.end.now, traces[1..]);
      HistoriesAdd(cache, ttl, Ops(t.start, t.actions), AllOps(traces[1..]));
      var to :| InOrder(AllOps(traces[1..]), t.end.now, to);
      JoinInOrder(Ops(t.start, t.actions), AllOps(traces[1..]), t.start.now, t.end.now, t.end.now, to);
      assert InOrder(AllOps(traces), now, to);
    }
  }

  /** Of each question, whether the provider's last mark before it is within the window. */
  function LastMarksRecent(cache: map<string, int>, ttl: int, ops: seq<Op>): seq<bool> {
    if ops == [] then []
    else
      var n := |ops| - 1;
      LastMarksRecent(cache, ttl, ops[..n])
      + if !ops[n].Ask? then []
        else
          var last := LastMark(cache, ops[..n], ops[n].id);
          [last.Some? && ops[n].at - last.value < ttl]
  }

  lemma {:induction false} UnprunedAnswers(cache: map<string, int>, ttl: int, ops: seq<Op>)
    ensures Answers(cache, ttl, ops, false) == LastMarksRecent(cache, ttl, ops)
  {
    if ops != [] {
      var n := |ops| - 1;
      UnprunedAnswers(cache, ttl, ops[..n]);
      if ops[n].Ask? {
        CacheHolds(cache, ttl, ops[..n], false, ops[n].id);
      }
    }
  }

  /** Over any number of passes, with their probes interleaved in any way: of every provider a
      pass asks about, it is skipped exactly if its last successful probe, in whichever pass,
      is within the window, although each pass prunes the cache. */
  lemma SkippedExactlyIfRecent(cache: map<string, int>, ttl: int, now: int, traces: seq<Trace>)
    requires Follow(cache, ttl, now, traces)
    ensures AllDecisions(traces) == LastMarksRecent(cache, ttl, AllOps(traces))
  {
    PassesAreHistory(cache, ttl, now, traces);
    PruningChangesNothing(cache, ttl, AllOps(traces));
    UnprunedAnswers(cache, ttl, AllOps(traces));
  }

  // ----- What a pass leaves in the cache -----

  /** A pass that has pruned the cache and has met no provider yet. */
  ghost predicate Begun(q: Pass) {
    && q.stage == Looping(0) && q.seen == {} && q.slots == q.group == 0 && q.probes == []
    && q.sum == Summary(0, 0, 0, 0, 0)
  }

  /** The probe succeeded, and has been marked. */
  predicate Marked(x: Probe) {
    x.outcome == Success && (x.step == Releasing || x.step == Leaving || x.step == Gone)
  }

  ghost predicate IsMarked(p: Pass, id: string) {
    exists n :: 0 <= n < |p.probes| && p.probes[n].id == id && Marked(p.probes[n])
  }

  /** The cache has a mark from this pass for the providers marked, and what it had for the
      others. */
  ghost predicate MarksOf(q: Pass, p: Pass, id: string) {
    && (id in p.cache <==> id in q.cache || IsMarked(p, id))
    && (IsMarked(p, id) ==> q.now <= p.cache[id] <= p.now)
    && (id in q.cache && !IsMarked(p, id) ==> p.cache[id] == q.cache[id])
  }

  lemma OnlyProbe(p: Pass, n: nat)
    requires Inv(p) && n < |p.probes|
    ensures forall m :: 0 <= m < |p.probes| && m != n ==> p.probes[m].id != p.probes[n].id
  {
    forall m | 0 <= m < |p.probes| && m != n ensures p.probes[m].id != p.probes[n].id {
      assert ProbeOk(p, m) && ProbeOk(p, n);
    }
  }

  /** Marking a probe's success is the only step that marks one. */
  lemma StepMarksOne(p: Pass, a: Action, id: string)
    requires Inv(p) && Enabled(p, a)
    ensures IsMarked(Apply(p, a), id) <==>
              IsMarked(p, id) || (a.Advance? && p.probes[a.p].step == Marking && p.probes[a.p].id == id)
  {
    var p' := Apply(p, a);
    if a.Advance? {
      var n := a.p;
      assert ProbeOk(p, n);
      OnlyProbe(p, n);
      assert p'.probes == p.probes[n := p'.probes[n]] && p'.probes[n].id == p.probes[n].id;
      assert Marked(p'.probes[n]) <==> Marked(p.probes[n]) || p.probes[n].step == Marking;
    }
    if m :| 0 <= m < |p.probes| && p.probes[m].id == id && Marked(p.probes[m]) {
      assert p'.probes[m].id == id && Marked(p'.probes[m]);
    }
  }

  lemma StepMarks(q: Pass, p: Pass, a: Action, id: string)
    requires Inv(p) && Enabled(p, a) && !p.stage.Starting? && q.now <= p.now && MarksOf(q, p, id)
    ensures MarksOf(q, Apply(p, a), id) && !Apply(p, a).stage.Starting? && q.now <= Apply(p, a).now
  {
    StepMarksOne(p, a, id);
  }

  lemma {:induction false} RunMarks(q: Pass, p: Pass, actions: seq<Action>, p': Pass, id: string)
    requires Inv(p) && Runs(p, actions, p') && !p.stage.Starting? && q.now <= p.now && MarksOf(q, p, id)
    ensures Inv(p') && MarksOf(q, p', id)
    decreases |actions|
  {
    if actions != [] {
      StepKeepsInv(p, actions[0]);
      StepMarks(q, p, actions[0], id);
      RunMarks(q, Apply(p, actions[0]), actions[1..], p', id);
    }
  }

  lemma BegunInv(q: Pass)
    requires Begun(q)
    ensures Inv(q)
  {
  }

  /** When a pass returns its cache has a mark from this pass for exactly the providers whose
      probe succeeded, and for every other what it had once it was pruned. */
  lemma MarkedExactlyIfSucceeded(q: Pass, actions: seq<Action>, p: Pass, id: string)
    requires Begun(q) && Runs(q, actions, p) && p.stage.Returned?
    ensures var succeeded := exists n :: 0 <= n < |p.probes| && p.probes[n].id == id && p.probes[n].outcome == Success;
            && (succeeded ==> id in p.cache && q.now <= p.cache[id] <= p.now)
            && (!succeeded ==> (id in p.cache <==> id in q.cache) && (id in p.cache ==> p.cache[id] == q.cache[id]))
  {
    BegunInv(q);
    RunMarks(q, q, actions, p, id);
    CountPositive(p.probes, Here);
    if n :| 0 <= n < |p.probes| && p.probes[n].id == id && p.probes[n].outcome == Success {
      assert Marked(p.probes[n]);
    }
  }

  // ----- A pass with no window -----

  function Distinct(ids: seq<string>): set<string> {
    set id | id in ids
  }

  /** The providers the loop has dealt with. */
  function MetSoFar(p: Pass): set<string> {
    match p.stage
    case Looping(i) => Distinct(if i <= |p.providers| then p.providers[..i] else p.providers)
    case Acquiring(i) => Distinct(if i < |p.providers| then p.providers[..i + 1] else p.providers)
    case _ => Distinct(p.providers)
  }

  /** Every provider met has a probe, or is about to; no mark is from the future. */
  ghost predicate AllProbed(p: Pass) {
    && !p.stage.Starting? && !p.ended && p.ttl <= 0
    && (forall id :: id in p.cache ==> p.cache[id] <= p.now)
    && p.seen == MetSoFar(p)
    && |p.seen| == |p.probes| + if p.stage.Acquiring? then 1 else 0
  }

  lemma MeetsOneMore(providers: seq<string>, i: nat)
    requires i < |providers|
    ensures Distinct(providers[..i + 1]) == Distinct(providers[..i]) + {providers[i]}
  {
    assert providers[..i + 1] == providers[..i] + [providers[i]];
  }

  lemma MeetAllProbed(p: Pass)
    requires Inv(p) && p.stage.Looping? && p.stage.i < |p.providers| && AllProbed(p)
    ensures AllProbed(Met(p, p.stage.i))
  {
    var i, id := p.stage.i, p.providers[p.stage.i];
    MeetsOneMore(p.providers, i);
    if id in p.seen {
      assert Distinct(p.providers[..i + 1]) == p.seen;
    } else {
      assert !Recent(p.cache, p.ttl, id, p.now);
      assert |p.seen + {id}| == |p.seen| + 1;
    }
  }

  lemma LoopAllProbed(p: Pass)
    requires Inv(p) && p.stage.Looping? && AllProbed(p)
    ensures AllProbed(Looped(p))
  {
    if p.stage.i < |p.providers| {
      MeetAllProbed(p);
    } else {
      assert p.providers[..p.stage.i] == p.providers;
    }
  }

  /** A probe's step, or the clock's, leaves the loop and what it has met. */
  lemma ProbeKeepsLoop(p: Pass, a: Action)
    requires Enabled(p, a) && (a.Advance? || a.Tick?)
    ensures var p' := Apply(p, a);
            && p'.stage == p.stage && p'.seen == p.seen && p'.providers == p.providers && p'.ended == p.ended
            && |p'.probes| == |p.probes| && p'.ttl == p.ttl && p.now <= p'.now
            && forall id :: id in p'.cache ==> p'.cache[id] == p'.now || (id in p.cache && p'.cache[id] == p.cache[id])
  {
  }

  lemma StepAllProbed(p: Pass, a: Action)
    requires Inv(p) && Enabled(p, a) && AllProbed(p) && !Apply(p, a).ended
    ensures AllProbed(Apply(p, a))
  {
    if a.Loop? && p.stage.Looping? {
      LoopAllProbed(p);
    } else if a.Advance? || a.Tick? {
      ProbeKeepsLoop(p, a);
    }
  }

  lemma {:induction false} RunAllProbed(p: Pass, actions: seq<Action>, p': Pass)
    requires Inv(p) && Runs(p, actions, p') && AllProbed(p) && !p'.ended
    ensures Inv(p') && AllProbed(p') && p'.providers == p.providers
    decreases |actions|
  {
    if actions != [] {
      if Apply(p, actions[0]).ended { EndedStays(Apply(p, actions[0]), actions[1..], p'); }
      StepKeepsInv(p, actions[0]);
      StepAllProbed(p, actions[0]);
      RunAllProbed(Apply(p, actions[0]), actions[1..], p');
    }
  }

  lemma {:induction false} EndedStays(p: Pass, actions: seq<Action>, p': Pass)
    requires Runs(p, actions, p') && p.ended
    ensures p'.ended
    decreases |actions|
  {
    if actions != [] {
      EndedStays(Apply(p, actions[0]), actions[1..], p');
    }
  }

  /** With no window, and no mark from the future, a pass that is not cancelled attempts every
      provider of its batch once, however often the batch names it. */
  lemma NoWindowProbesAll(q: Pass, actions: seq<Action>, p: Pass)
    requires Begun(q) && Runs(q, actions, p) && p.stage.Returned? && !p.ended
    requires q.ttl <= 0 && forall id :: id in q.cache ==> q.cache[id] <= q.now
    ensures p.sum.attempted == |Distinct(q.providers)|
  {
    BegunInv(q);
    if q.ended { EndedStays(q, actions, p); }
    assert q.providers[..0] == [];
    RunAllProbed(q, actions, p);
    CountPositive(p.probes, Here);
    forall n | 0 <= n < |p.probes| ensures p.probes[n].step == Gone && p.probes[n].outcome != Unknown {
      assert ProbeOk(p, n);
    }
    CountAll(p.probes);
  }
}
