/** Measuring a provider's bandwidth: parallel streams of bounded size, one figure over a
    window common to all of them, and a byte reservation before every measurement. */
module Bandwidth {
  import opened Common

  const STREAM_COUNT := 8
  const STREAM_BYTES := 2 * 1024 * 1024
  const MAX_SAMPLE_BYTES := STREAM_COUNT * STREAM_BYTES
  const BUFFER_BYTES := 32 * 1024
  const WARMUP_DURATION := 500 * MILLISECOND
  const MAX_STEADY_INFLATION := 4
  const MIN_TIME_BUDGET := SECOND

  // ----- One stream -----

  /** How a read ends: with more to come, at the end of the body, at the measurement's
      own deadline, or broken, which includes a probe that was cancelled. */
  datatype End = More | Eof | OwnDeadline | Broken

  /** One read: how much arrived, when it completed, and how it ended. */
  datatype Read = Read(size: nat, at: int, end: End)

  /** The bytes one read moved, and when. */
  datatype Move = Move(bytes: nat, at: int)

  datatype StreamState = StreamState(total: nat, steadyBytes: nat, steadyStart: Option<int>, end: Option<int>,
                                     err: bool)

  /** What is asked of a read: a buffer, or what is left of the stream's allowance. */
  function Asked(total: nat): (n: nat)
    requires total <= STREAM_BYTES
  {
    if STREAM_BYTES - total < BUFFER_BYTES then STREAM_BYTES - total else BUFFER_BYTES
  }

  /** What a stream moves in all, `moved` before its `i`th read: a read moves no more
      than it is asked for, and the last is the one that fills the allowance, ends the
      body or the measurement, or completes after `capAt`. */
  function Moves(arrivals: seq<Read>, i: nat, total: nat, capAt: int, moved: seq<Move>): seq<Move>
    requires total <= STREAM_BYTES
    decreases |arrivals| - i
  {
    if |arrivals| <= i then moved
    else
      var r := arrivals[i];
      var n := Min(r.size, Asked(total));
      var now := moved + [Move(n, r.at)];
      if Last(r, total + n, capAt) then now else Moves(arrivals, i + 1, total + n, capAt, now)
  }

  predicate Last(r: Read, total: nat, capAt: int) {
    STREAM_BYTES <= total || r.end != More || capAt <= r.at
  }

  function Bytes(ms: seq<Move>): nat {
    if ms == [] then 0 else Bytes(ms[..|ms| - 1]) + ms[|ms| - 1].bytes
  }

  /** The bytes of the moves between two instants, both included. */
  function BytesWithin(ms: seq<Move>, lo: int, hi: int): nat {
    if ms == [] then 0
    else
      var m := ms[|ms| - 1];
      BytesWithin(ms[..|ms| - 1], lo, hi) + if lo <= m.at <= hi then m.bytes else 0
  }

  function BytesFrom(ms: seq<Move>, lo: int): nat {
    if ms == [] then 0
    else
      var m := ms[|ms| - 1];
      BytesFrom(ms[..|ms| - 1], lo) + if lo <= m.at then m.bytes else 0
  }

  function FirstFrom(ms: seq<Move>, lo: int): Option<int> {
    if ms == [] then None
    else
      var before, m := FirstFrom(ms[..|ms| - 1], lo), ms[|ms| - 1];
      if before == None && lo <= m.at then Some(m.at) else before
  }

  function LastAt(ms: seq<Move>): Option<int> {
    if ms == [] then None else Some(ms[|ms| - 1].at)
  }

  /** A stream's fields say this of what it moved. */
  ghost predicate Describes(s: StreamState, ms: seq<Move>, steadyFrom: int) {
    && s.total == Bytes(ms) <= STREAM_BYTES
    && s.steadyBytes == BytesFrom(ms, steadyFrom)
    && s.steadyStart == FirstFrom(ms, steadyFrom)
    && s.end == LastAt(ms)
  }

  /** A stream's fields once a read is counted. */
  function Landed(s: StreamState, m: Move, steadyFrom: int): StreamState {
    var steady := steadyFrom <= m.at;
    StreamState(s.total + m.bytes, s.steadyBytes + (if steady then m.bytes else 0),
                if s.steadyStart.None? && steady then Some(m.at) else s.steadyStart, Some(m.at), s.err)
  }

  lemma DescribesNext(s: StreamState, ms: seq<Move>, m: Move, steadyFrom: int)
    requires Describes(s, ms, steadyFrom) && s.total + m.bytes <= STREAM_BYTES
    ensures Describes(Landed(s, m, steadyFrom), ms + [m], steadyFrom)
  {
    OneMoreMove(ms, m, steadyFrom);
  }

  lemma OneMoreMove(ms: seq<Move>, m: Move, lo: int)
    ensures Bytes(ms + [m]) == Bytes(ms) + m.bytes
    ensures BytesFrom(ms + [m], lo) == BytesFrom(ms, lo) + if lo <= m.at then m.bytes else 0
    ensures FirstFrom(ms + [m], lo) == if FirstFrom(ms, lo) == None && lo <= m.at then Some(m.at) else FirstFrom(ms, lo)
    ensures LastAt(ms + [m]) == Some(m.at)
  {
    assert (ms + [m])[..|ms|] == ms;
  }

  /** Whether the reads a stream makes end with one that fails. */
  function Fails(arrivals: seq<Read>, i: nat, total: nat, capAt: int): bool
    requires total <= STREAM_BYTES
    decreases |arrivals| - i
  {
    if |arrivals| <= i then false
    else
      var r := arrivals[i];
      var n := Min(r.size, Asked(total));
      if Last(r, total + n, capAt) then total + n < STREAM_BYTES && r.end.Broken?
      else Fails(arrivals, i + 1, total + n, capAt)
  }

  /** What a read is asked for is a buffer, or what is left of the allowance if that is less,
      and it moves what arrives of that. */
  ghost predicate AsArrived(arrivals: seq<Read>, ms: seq<Move>, k: nat)
    requires k < |ms| && k < |arrivals|
  {
    && ms[k].at == arrivals[k].at
    && ms[k].bytes == Min(arrivals[k].size, Min(BUFFER_BYTES, STREAM_BYTES - Bytes(ms[..k])))
  }

  /** After read `k` the stream goes on: there is more to come, the measurement has time left,
      and the stream some of its allowance. */
  ghost predicate GoesOn(arrivals: seq<Read>, ms: seq<Move>, k: nat, capAt: int)
    requires k < |ms| && k < |arrivals|
  {
    arrivals[k].end == More && arrivals[k].at < capAt && Bytes(ms[..k + 1]) < STREAM_BYTES
  }

  /** The reads a stream makes: it goes on after each but the last, and stops there. */
  ghost predicate ReadsMade(arrivals: seq<Read>, ms: seq<Move>, capAt: int) {
    && |ms| <= |arrivals|
    && (forall k :: 0 <= k < |ms| ==> AsArrived(arrivals, ms, k))
    && (forall k :: 0 <= k < |ms| - 1 ==> GoesOn(arrivals, ms, k, capAt))
    && (|ms| < |arrivals| ==> 0 < |ms| && !GoesOn(arrivals, ms, |ms| - 1, capAt))
  }

  /** The last read a stream made broke off short of its allowance. */
  ghost predicate BreaksOff(arrivals: seq<Read>, ms: seq<Move>) {
    0 < |ms| <= |arrivals| && arrivals[|ms| - 1].end.Broken? && Bytes(ms) < STREAM_BYTES
  }

  lemma ReadStays(arrivals: seq<Read>, moved: seq<Move>, m: Move, k: nat, capAt: int)
    requires k < |moved| && k < |arrivals|
    requires AsArrived(arrivals, moved, k) && GoesOn(arrivals, moved, k, capAt)
    ensures AsArrived(arrivals, moved + [m], k) && GoesOn(arrivals, moved + [m], k, capAt)
  {
    var now := moved + [m];
    assert now[..k] == moved[..k] && now[..k + 1] == moved[..k + 1] && now[k] == moved[k];
  }

  lemma OneMoreRead(arrivals: seq<Read>, i: nat, moved: seq<Move>, m: Move, capAt: int)
    requires |moved| == i < |arrivals| && Bytes(moved) <= STREAM_BYTES
    requires m == Move(Min(arrivals[i].size, Asked(Bytes(moved))), arrivals[i].at)
    requires forall k :: 0 <= k < i ==> AsArrived(arrivals, moved, k) && GoesOn(arrivals, moved, k, capAt)
    ensures forall k :: 0 <= k <= i ==> AsArrived(arrivals, moved + [m], k)
    ensures forall k :: 0 <= k < i ==> GoesOn(arrivals, moved + [m], k, capAt)
    ensures Bytes(moved + [m]) == Bytes(moved) + m.bytes
  {
    var now := moved + [m];
    OneMoreMove(moved, m, 0);
    assert now[..i] == moved;
    forall k | 0 <= k < i ensures AsArrived(arrivals, now, k) && GoesOn(arrivals, now, k, capAt) {
      ReadStays(arrivals, moved, m, k, capAt);
    }
  }

  /** What a stream moves is what its reads bring until one fills the allowance, does not end
      with more to come, or completes out of time; and it fails exactly if that last read
      broke off short of the allowance. */
  lemma {:induction false} StopsAtLast(arrivals: seq<Read>, i: nat, capAt: int, moved: seq<Move>)
    requires |moved| == i <= |arrivals| && Bytes(moved) <= STREAM_BYTES
    requires forall k :: 0 <= k < i ==> AsArrived(arrivals, moved, k) && GoesOn(arrivals, moved, k, capAt)
    ensures var ms := Moves(arrivals, i, Bytes(moved), capAt, moved);
            && ReadsMade(arrivals, ms, capAt)
            && (Fails(arrivals, i, Bytes(moved), capAt) <==> BreaksOff(arrivals, ms))
    decreases |arrivals| - i
  {
    if i < |arrivals| {
      var r, m := arrivals[i], Move(Min(arrivals[i].size, Asked(Bytes(moved))), arrivals[i].at);
      var now := moved + [m];
      OneMoreRead(arrivals, i, moved, m, capAt);
      assert now[..i + 1] == now;
      if Last(r, Bytes(now), capAt) {
        assert !GoesOn(arrivals, now, i, capAt);
      } else {
        StopsAtLast(arrivals, i + 1, capAt, now);
      }
    } else if 0 < i {
      assert moved[..i] == moved && GoesOn(arrivals, moved, i - 1, capAt);
    }
  }

  class Stream {
    var total: nat
    var steadyBytes: nat
    var steadyStart: Option<int>
    var end: Option<int>
    var err: bool

    function State(): StreamState reads this {
      StreamState(total, steadyBytes, steadyStart, end, err)
    }

    constructor ()
      ensures State() == StreamState(0, 0, None, None, false)
    {
      total, steadyBytes, steadyStart, end, err := 0, 0, None, None, false;
    }

    /** Drains the stream up to its allowance.  `arrivals` is what its reads come to. */
    method ReadStream(arrivals: seq<Read>, steadyFrom: int, capAt: int)
      requires State() == StreamState(0, 0, None, None, false)
      modifies this
      ensures Describes(State(), Moves(arrivals, 0, 0, capAt, []), steadyFrom)
      ensures err == Fails(arrivals, 0, 0, capAt)
      ensures ReadsMade(arrivals, Moves(arrivals, 0, 0, capAt, []), capAt)
      ensures err <==> BreaksOff(arrivals, Moves(arrivals, 0, 0, capAt, []))
    {
      StopsAtLast(arrivals, 0, capAt, []);
      ghost var moved: seq<Move> := [];
      var i := 0;
      while i < |arrivals|
        invariant 0 <= i <= |arrivals|
        invariant total < STREAM_BYTES && !err
        invariant Describes(State(), moved, steadyFrom)
        invariant Moves(arrivals, 0, 0, capAt, []) == Moves(arrivals, i, total, capAt, moved)
        invariant Fails(arrivals, 0, 0, capAt) == Fails(arrivals, i, total, capAt)
      {
        var asked := Asked(total);
        assert 0 < asked;
        var n, now, readErr := Min(arrivals[i].size, asked), arrivals[i].at, arrivals[i].end;
        DescribesNext(State(), moved, Move(n, now), steadyFrom);
        moved := moved + [Move(n, now)];
        Land(n, now, steadyFrom);
        if STREAM_BYTES <= total {
          return;
        }
        if readErr.Eof? {
          return;
        }
        if !readErr.More? {
          if readErr.OwnDeadline? {
            return;
          }
          err := true;
          return;
        }
        if capAt <= now {
          return;
        }
        i := i + 1;
      }
    }

    /** Counts one read that completed at `now`. */
    method Land(n: nat, now: int, steadyFrom: int)
      modifies this
      ensures State() == Landed(old(State()), Move(n, now), steadyFrom)
    {
      end := Some(now);
      total := total + n;
      if steadyFrom <= now {
        if steadyStart.None? {
          steadyStart := Some(now);
        }
        steadyBytes := steadyBytes + n;
      }
    }
  }

  // ----- One figure for all the streams -----

  datatype Sample = Sample(rate: real, bytes: nat, streams: nat, warmupExcluded: bool, elapsed: int)

  const NO_SAMPLE := Sample(0.0, 0, 0, false, 0)

  datatype Fault = NoFault | StreamFailed | NothingMoved | ClockStoodStill

  datatype Measured = Measured(sample: Sample, fault: Fault)

  /** Bytes per second over a stretch of time. */
  function Rate(bytes: nat, elapsed: int): real
    requires 0 < elapsed
  {
    (bytes * SECOND) as real / elapsed as real
  }

  /** A rate is what, over the time, gives the bytes. */
  lemma RateMeaning(bytes: nat, elapsed: int)
    requires 0 < elapsed
    ensures Rate(bytes, elapsed) * (elapsed as real / SECOND as real) == bytes as real
  {
    var e, s := elapsed as real, SECOND as real;
    assert Rate(bytes, elapsed) * e == bytes as real * s;
    assert Rate(bytes, elapsed) * (e / s) == (Rate(bytes, elapsed) * e) / s;
  }

  /** Whether the steady window is long enough for its rate to stand for the transfer's. */
  predicate Representative(hasStart: bool, steadyBytes: nat, totalElapsed: int, steadyElapsed: int) {
    hasStart && 0 < steadyBytes && 0 < steadyElapsed && totalElapsed <= MAX_STEADY_INFLATION * steadyElapsed
  }

  function SumTotal(sts: seq<StreamState>): nat {
    if sts == [] then 0 else SumTotal(sts[..|sts| - 1]) + sts[|sts| - 1].total
  }

  function SumSteady(sts: seq<StreamState>): nat {
    if sts == [] then 0 else SumSteady(sts[..|sts| - 1]) + sts[|sts| - 1].steadyBytes
  }

  function Later(a: Option<int>, b: Option<int>): Option<int> {
    if a.None? then b else if b.Some? && a.value < b.value then b else a
  }

  function Earlier(a: Option<int>, b: Option<int>): Option<int> {
    if a.None? then b else if b.Some? && b.value < a.value then b else a
  }

  /** When the last stream to finish did. */
  function WindowEnd(sts: seq<StreamState>): Option<int> {
    if sts == [] then None else Later(WindowEnd(sts[..|sts| - 1]), sts[|sts| - 1].end)
  }

  /** When the first stream to reach the steady state did. */
  function WindowStart(sts: seq<StreamState>): Option<int> {
    if sts == [] then None else Earlier(WindowStart(sts[..|sts| - 1]), sts[|sts| - 1].steadyStart)
  }

  ghost predicate AnyFailed(sts: seq<StreamState>) {
    exists i :: 0 <= i < |sts| && sts[i].err
  }

  /** How long the transfer took, from the streams' common start to the last read. */
  function Elapsed(sts: seq<StreamState>, start: int): int {
    if WindowEnd(sts).Some? then WindowEnd(sts).value - start else 0
  }

  ghost predicate UsesSteady(sts: seq<StreamState>, start: int) {
    && WindowStart(sts).Some? && WindowEnd(sts).Some?
    && Representative(true, SumSteady(sts), Elapsed(sts, start), WindowEnd(sts).value - WindowStart(sts).value)
  }

  ghost function Published(sts: seq<StreamState>, start: int): Measured {
    var total := SumTotal(sts);
    if AnyFailed(sts) then Measured(Sample(0.0, total, STREAM_COUNT, false, 0), StreamFailed)
    else if total == 0 then Measured(NO_SAMPLE, NothingMoved)
    else if Elapsed(sts, start) <= 0 then Measured(Sample(0.0, total, STREAM_COUNT, false, 0), ClockStoodStill)
    else if UsesSteady(sts, start) then
      var steady := WindowEnd(sts).value - WindowStart(sts).value;
      Measured(Sample(Rate(SumSteady(sts), steady), total, STREAM_COUNT, true, steady), NoFault)
    else
      Measured(Sample(Rate(total, Elapsed(sts, start)), total, STREAM_COUNT, false, Elapsed(sts, start)), NoFault)
  }

  method Aggregate(sts: seq<StreamState>, start: int) returns (m: Measured)
    ensures m == Published(sts, start)
  {
    var total, steadyBytes, failed := 0, 0, false;
    var windowStart: Option<int>, windowEnd: Option<int> := None, None;
    for i := 0 to |sts|
      invariant total == SumTotal(sts[..i]) && steadyBytes == SumSteady(sts[..i])
      invariant windowStart == WindowStart(sts[..i]) && windowEnd == WindowEnd(sts[..i])
      invariant failed <==> exists j :: 0 <= j < i && sts[j].err
    {
      assert sts[..i + 1][..i] == sts[..i];
      total := total + sts[i].total;
      steadyBytes := steadyBytes + sts[i].steadyBytes;
      if windowEnd.None? || (sts[i].end.Some? && windowEnd.value < sts[i].end.value) {
        windowEnd := sts[i].end;
      }
      if sts[i].steadyStart.Some? {
        if windowStart.None? || sts[i].steadyStart.value < windowStart.value {
          windowStart := sts[i].steadyStart;
        }
      }
      if !failed {
        failed := sts[i].err;
      }
    }
    assert sts[..|sts|] == sts;
    if failed {
      return Measured(Sample(0.0, total, STREAM_COUNT, false, 0), StreamFailed);
    }
    if total <= 0 {
      return Measured(NO_SAMPLE, NothingMoved);
    }
    var totalElapsed := if windowEnd.Some? then windowEnd.value - start else 0;
    if totalElapsed <= 0 {
      return Measured(Sample(0.0, total, STREAM_COUNT, false, 0), ClockStoodStill);
    }
    var steadyElapsed := if windowStart.Some? then windowEnd.value - windowStart.value else 0;
    if Representative(windowStart.Some?, steadyBytes, totalElapsed, steadyElapsed) {
      return Measured(Sample(Rate(steadyBytes, steadyElapsed), total, STREAM_COUNT, true, steadyElapsed), NoFault);
    }
    return Measured(Sample(Rate(total, totalElapsed), total, STREAM_COUNT, false, totalElapsed), NoFault);
  }

  // ----- One measurement -----

  /** Reads complete one after another. */
  ghost predicate OneAfterAnother(arrivals: seq<Read>) {
    forall i, j :: 0 <= i < j < |arrivals| ==> arrivals[i].at <= arrivals[j].at
  }

  ghost predicate InTime(ms: seq<Move>) {
    forall i, j :: 0 <= i < j < |ms| ==> ms[i].at <= ms[j].at
  }

  lemma {:induction false} MovesInTime(arrivals: seq<Read>, i: nat, total: nat, capAt: int, moved: seq<Move>)
    requires total <= STREAM_BYTES && OneAfterAnother(arrivals) && InTime(moved) && i <= |arrivals|
    requires moved != [] ==> 0 < i && moved[|moved| - 1].at == arrivals[i - 1].at
    ensures InTime(Moves(arrivals, i, total, capAt, moved))
    decreases |arrivals| - i
  {
    if i < |arrivals| {
      var r := arrivals[i];
      var n := Min(r.size, Asked(total));
      var now := moved + [Move(n, r.at)];
      LaterMove(moved, Move(n, r.at));
      if !Last(r, total + n, capAt) {
        MovesInTime(arrivals, i + 1, total + n, capAt, now);
      }
    }
  }

  lemma LaterMove(ms: seq<Move>, m: Move)
    requires InTime(ms) && (ms != [] ==> ms[|ms| - 1].at <= m.at)
    ensures InTime(ms + [m])
  {
    var all := ms + [m];
    forall i, j | 0 <= i < j < |all| ensures all[i].at <= all[j].at {
      assert i < |ms| ==> ms[i].at <= ms[|ms| - 1].at;
    }
  }

  /** The streams of one measurement, what each moved, on a clock that never goes back. */
  ghost predicate MeasuredStreams(sts: seq<StreamState>, mss: seq<seq<Move>>, start: int) {
    && |sts| == |mss|
    && forall i :: 0 <= i < |sts| ==> Describes(sts[i], mss[i], start + WARMUP_DURATION) && InTime(mss[i])
  }

  ghost function AllMoves(arrivals: seq<seq<Read>>, capAt: int): (mss: seq<seq<Move>>)
    ensures |mss| == |arrivals|
  {
    seq(|arrivals|, i requires 0 <= i < |arrivals| => Moves(arrivals[i], 0, 0, capAt, []))
  }

  /** One stream's state says what it moved, in time, by the reads it made. */
  ghost predicate Drained(st: StreamState, arrivals: seq<Read>, ms: seq<Move>, start: int, capAt: int) {
    && Describes(st, ms, start + WARMUP_DURATION) && InTime(ms)
    && ReadsMade(arrivals, ms, capAt) && st.err == BreaksOff(arrivals, ms)
  }

  method Drain(arrivals: seq<Read>, start: int, capAt: int) returns (st: StreamState)
    requires OneAfterAnother(arrivals)
    ensures Drained(st, arrivals, Moves(arrivals, 0, 0, capAt, []), start, capAt)
  {
    var stream := new Stream();
    stream.ReadStream(arrivals, start + WARMUP_DURATION, capAt);
    MovesInTime(arrivals, 0, 0, capAt, []);
    st := stream.State();
  }

  /** Drains every stream and publishes one figure for all of them.  Each stream has its own
      state, so the order they are drained in here is as good as any. */
  method Measure(arrivals: seq<seq<Read>>, start: int, capAt: int) returns (m: Measured, sts: seq<StreamState>)
    requires |arrivals| == STREAM_COUNT
    requires forall i :: 0 <= i < |arrivals| ==> OneAfterAnother(arrivals[i])
    ensures m == Published(sts, start) && |sts| == STREAM_COUNT
    ensures forall i :: 0 <= i < |sts| ==> Drained(sts[i], arrivals[i], AllMoves(arrivals, capAt)[i], start, capAt)
    ensures MeasuredStreams(sts, AllMoves(arrivals, capAt), start)
  {
    sts := [];
    ghost var mss := AllMoves(arrivals, capAt);
    for i := 0 to |arrivals|
      invariant |sts| == i
      invariant forall j :: 0 <= j < i ==> Drained(sts[j], arrivals[j], mss[j], start, capAt)
    {
      var st := Drain(arrivals[i], start, capAt);
      sts := sts + [st];
    }
    m := Aggregate(sts, start);
  }

  /** A measurement fails exactly if some stream's last read broke off, and then it gives no
      figure, whatever the other streams moved. */
  lemma FailsExactlyIfBroken(sts: seq<StreamState>, arrivals: seq<seq<Read>>, start: int, capAt: int)
    requires |sts| == |arrivals|
    requires forall i :: 0 <= i < |sts| ==> Drained(sts[i], arrivals[i], AllMoves(arrivals, capAt)[i], start, capAt)
    ensures Published(sts, start).fault.StreamFailed? <==>
              exists i :: 0 <= i < |arrivals| && BreaksOff(arrivals[i], AllMoves(arrivals, capAt)[i])
    ensures Published(sts, start).fault.StreamFailed? ==> Published(sts, start).sample.rate == 0.0
  {
    if i :| 0 <= i < |arrivals| && BreaksOff(arrivals[i], AllMoves(arrivals, capAt)[i]) {
      assert Drained(sts[i], arrivals[i], AllMoves(arrivals, capAt)[i], start, capAt);
    }
  }

  // ----- The figure is honest -----

  lemma {:induction false} SteadyAtMostTotal(ms: seq<Move>, lo: int)
    ensures BytesFrom(ms, lo) <= Bytes(ms)
  {
    if ms != [] {
      SteadyAtMostTotal(ms[..|ms| - 1], lo);
    }
  }

  /** No sample moves more than was reserved for it, nor counts as steady more than it
      moved. */
  lemma {:induction false} SumsBounded(sts: seq<StreamState>, mss: seq<seq<Move>>, start: int)
    requires MeasuredStreams(sts, mss, start)
    ensures SumSteady(sts) <= SumTotal(sts) <= |sts| * STREAM_BYTES
  {
    if sts != [] {
      var n := |sts| - 1;
      assert Describes(sts[n], mss[n], start + WARMUP_DURATION);
      SumsBounded(sts[..n], mss[..n], start);
      SteadyAtMostTotal(mss[n], start + WARMUP_DURATION);
      assert |sts| * STREAM_BYTES == n * STREAM_BYTES + STREAM_BYTES;
    }
  }

  lemma {:induction false} FirstIsEarliest(ms: seq<Move>, lo: int)
    requires InTime(ms)
    ensures FirstFrom(ms, lo).Some? ==> lo <= FirstFrom(ms, lo).value <= LastAt(ms).value
    ensures forall i :: 0 <= i < |ms| && lo <= ms[i].at ==>
              FirstFrom(ms, lo).Some? && FirstFrom(ms, lo).value <= ms[i].at
  {
    if ms != [] {
      var n := |ms| - 1;
      FirstIsEarliest(ms[..n], lo);
      forall i | 0 <= i < |ms| && lo <= ms[i].at
        ensures FirstFrom(ms, lo).Some? && FirstFrom(ms, lo).value <= ms[i].at
      {
        if i < n {
          assert ms[..n][i] == ms[i];
        }
      }
    }
  }

  lemma {:induction false} SameBytes(ms: seq<Move>, from: int, lo: int, hi: int)
    requires forall i :: 0 <= i < |ms| ==> (from <= ms[i].at <==> lo <= ms[i].at <= hi)
    ensures BytesFrom(ms, from) == BytesWithin(ms, lo, hi)
  {
    if ms != [] {
      SameBytes(ms[..|ms| - 1], from, lo, hi);
    }
  }

  /** Every stream starts its steady state in the window and ends inside it. */
  ghost predicate Spans(sts: seq<StreamState>, lo: Option<int>, hi: Option<int>) {
    forall i :: 0 <= i < |sts| ==> SpansOne(sts[i], lo, hi)
  }

  ghost predicate SpansOne(s: StreamState, lo: Option<int>, hi: Option<int>) {
    && (s.steadyStart.Some? ==> lo.Some? && lo.value <= s.steadyStart.value)
    && (s.end.Some? ==> hi.Some? && s.end.value <= hi.value)
  }

  lemma {:induction false} WindowSpans(sts: seq<StreamState>)
    ensures Spans(sts, WindowStart(sts), WindowEnd(sts))
    ensures WindowStart(sts).Some? ==> exists i :: 0 <= i < |sts| && sts[i].steadyStart == WindowStart(sts)
    ensures WindowEnd(sts).Some? ==> exists i :: 0 <= i < |sts| && sts[i].end == WindowEnd(sts)
  {
    if sts != [] {
      var n := |sts| - 1;
      WindowSpans(sts[..n]);
      forall i | 0 <= i < |sts| ensures SpansOne(sts[i], WindowStart(sts), WindowEnd(sts)) {
        if i < n {
          assert SpansOne(sts[..n][i], WindowStart(sts[..n]), WindowEnd(sts[..n]));
        }
      }
      if i :| 0 <= i < n && sts[..n][i].steadyStart == WindowStart(sts[..n]) {
        assert sts[i].steadyStart == WindowStart(sts[..n]);
      }
      if i :| 0 <= i < n && sts[..n][i].end == WindowEnd(sts[..n]) {
        assert sts[i].end == WindowEnd(sts[..n]);
      }
    }
  }

  /** What all the streams moved between two instants. */
  ghost function WindowBytes(mss: seq<seq<Move>>, lo: int, hi: int): nat {
    if mss == [] then 0 else WindowBytes(mss[..|mss| - 1], lo, hi) + BytesWithin(mss[|mss| - 1], lo, hi)
  }

  lemma OneStreamInWindow(s: StreamState, ms: seq<Move>, from: int, lo: int, hi: int)
    requires Describes(s, ms, from) && InTime(ms) && from <= lo && SpansOne(s, Some(lo), Some(hi))
    ensures s.steadyBytes == BytesWithin(ms, lo, hi)
  {
    FirstIsEarliest(ms, from);
    forall i | 0 <= i < |ms| ensures from <= ms[i].at <==> lo <= ms[i].at <= hi {
      assert ms[i].at <= ms[|ms| - 1].at;
    }
    SameBytes(ms, from, lo, hi);
  }

  lemma {:induction false} SteadyInWindow(sts: seq<StreamState>, mss: seq<seq<Move>>, start: int, lo: int, hi: int)
    requires MeasuredStreams(sts, mss, start) && start + WARMUP_DURATION <= lo && Spans(sts, Some(lo), Some(hi))
    ensures SumSteady(sts) == WindowBytes(mss, lo, hi)
  {
    if sts != [] {
      var n := |sts| - 1;
      SteadyInWindow(sts[..n], mss[..n], start, lo, hi);
      assert Describes(sts[n], mss[n], start + WARMUP_DURATION) && SpansOne(sts[n], Some(lo), Some(hi));
      OneStreamInWindow(sts[n], mss[n], start + WARMUP_DURATION, lo, hi);
    }
  }

  lemma WindowOpensAfterWarmup(sts: seq<StreamState>, mss: seq<seq<Move>>, start: int)
    requires MeasuredStreams(sts, mss, start) && WindowStart(sts).Some?
    ensures start + WARMUP_DURATION <= WindowStart(sts).value
  {
    WindowSpans(sts);
    var i :| 0 <= i < |sts| && sts[i].steadyStart == WindowStart(sts);
    assert Describes(sts[i], mss[i], start + WARMUP_DURATION);
    FirstIsEarliest(mss[i], start + WARMUP_DURATION);
  }

  lemma RateAtMost(bytes: nat, elapsed: int, limit: real)
    requires 0 < elapsed && (bytes * SECOND) as real <= limit * elapsed as real
    ensures Rate(bytes, elapsed) <= limit
  {
    var r, e := Rate(bytes, elapsed), elapsed as real;
    assert r * e == (bytes * SECOND) as real;
    if r > limit {
      assert (r - limit) * e > 0.0;
    }
  }

  /** A window that is at least a quarter of the transfer inflates its rate at most
      fourfold, whatever moved inside it. */
  lemma InflatedAtMostFourfold(part: nat, whole: nat, steady: int, elapsed: int)
    requires part <= whole && 0 < steady && 0 < elapsed <= MAX_STEADY_INFLATION * steady
    ensures Rate(part, steady) <= 4.0 * Rate(whole, elapsed)
  {
    var x, w, s, e := Rate(whole, elapsed), (whole * SECOND) as real, steady as real, elapsed as real;
    assert x * e == w;
    assert 0.0 <= x;
    assert x * (4.0 * s - e) >= 0.0;
    assert x * (4.0 * s - e) == 4.0 * x * s - w;
    RateAtMost(part, steady, 4.0 * x);
  }

  /** What is published is the bytes all the streams moved inside one window, over that
      window; it is at most four times the whole transfer's own rate; and a figure that
      leaves the warm-up out comes of a transfer that took at least four thirds of it,
      which makes that rate at most 24 MiB a second and the figure at most 96. */
  lemma PublishedIsHonest(sts: seq<StreamState>, mss: seq<seq<Move>>, start: int)
    requires MeasuredStreams(sts, mss, start) && |sts| == STREAM_COUNT && Published(sts, start).fault.NoFault?
    ensures var s := Published(sts, start).sample;
            var took := Elapsed(sts, start);
            && 0 < took
            && s.bytes == SumTotal(sts) <= MAX_SAMPLE_BYTES
            && s.rate <= 4.0 * Rate(s.bytes, took)
            && (!s.warmupExcluded ==> s.rate == Rate(s.bytes, took))
            && (s.warmupExcluded ==>
                  && WindowStart(sts).Some? && WindowEnd(sts).Some?
                  && s.elapsed == WindowEnd(sts).value - WindowStart(sts).value > 0
                  && s.rate == Rate(WindowBytes(mss, WindowStart(sts).value, WindowEnd(sts).value), s.elapsed)
                  && 4 * WARMUP_DURATION <= 3 * took
                  && Rate(s.bytes, took) <= 25165824.0 && s.rate <= 100663296.0)
  {
    var s, took := Published(sts, start).sample, Elapsed(sts, start);
    SumsBounded(sts, mss, start);
    if UsesSteady(sts, start) {
      WindowSpans(sts);
      WindowOpensAfterWarmup(sts, mss, start);
      SteadyInWindow(sts, mss, start, WindowStart(sts).value, WindowEnd(sts).value);
      InflatedAtMostFourfold(SumSteady(sts), SumTotal(sts), s.elapsed, took);
      CeilingOf(SumTotal(sts), took);
    } else {
      InflatedAtMostFourfold(SumTotal(sts), SumTotal(sts), took, took);
    }
  }

  /** The instant is the last at which any of the streams moved bytes. */
  ghost predicate IsLastMove(mss: seq<seq<Move>>, at: int) {
    && (forall i, k :: 0 <= i < |mss| && 0 <= k < |mss[i]| ==> mss[i][k].at <= at)
    && exists i, k :: 0 <= i < |mss| && 0 <= k < |mss[i]| && mss[i][k].at == at
  }

  /** The instant is the first, once the warm-up is over, at which any of them did. */
  ghost predicate IsFirstSteady(mss: seq<seq<Move>>, from: int, at: int) {
    && from <= at
    && (forall i, k :: 0 <= i < |mss| && 0 <= k < |mss[i]| && from <= mss[i][k].at ==> at <= mss[i][k].at)
    && exists i, k :: 0 <= i < |mss| && 0 <= k < |mss[i]| && mss[i][k].at == at
  }

  lemma {:induction false} FirstIsAMove(ms: seq<Move>, lo: int)
    requires FirstFrom(ms, lo).Some?
    ensures exists k :: 0 <= k < |ms| && ms[k].at == FirstFrom(ms, lo).value
  {
    var n := |ms| - 1;
    if FirstFrom(ms[..n], lo).Some? {
      FirstIsAMove(ms[..n], lo);
      var k :| 0 <= k < n && ms[..n][k].at == FirstFrom(ms[..n], lo).value;
      assert ms[k].at == FirstFrom(ms, lo).value;
    }
  }

  /** The window ends with the last move of any stream. */
  lemma WindowEndMeaning(sts: seq<StreamState>, mss: seq<seq<Move>>, start: int)
    requires MeasuredStreams(sts, mss, start)
    ensures WindowEnd(sts).Some? ==> IsLastMove(mss, WindowEnd(sts).value)
    ensures WindowEnd(sts).None? ==> forall i :: 0 <= i < |mss| ==> mss[i] == []
  {
    WindowSpans(sts);
    forall i | 0 <= i < |mss|
      ensures mss[i] != [] ==> WindowEnd(sts).Some?
      ensures forall k :: 0 <= k < |mss[i]| ==> mss[i][k].at <= WindowEnd(sts).value
    {
      assert Describes(sts[i], mss[i], start + WARMUP_DURATION) && SpansOne(sts[i], WindowStart(sts), WindowEnd(sts));
    }
    if i :| WindowEnd(sts).Some? && 0 <= i < |sts| && sts[i].end == WindowEnd(sts) {
      assert Describes(sts[i], mss[i], start + WARMUP_DURATION);
      assert mss[i][|mss[i]| - 1].at == WindowEnd(sts).value;
    }
  }

  /** It starts with the first move of any stream once the warm-up is over. */
  lemma WindowStartMeaning(sts: seq<StreamState>, mss: seq<seq<Move>>, start: int)
    requires MeasuredStreams(sts, mss, start)
    ensures var from := start + WARMUP_DURATION;
            && (WindowStart(sts).Some? ==> IsFirstSteady(mss, from, WindowStart(sts).value))
            && (WindowStart(sts).None? ==>
                  forall i, k :: 0 <= i < |mss| && 0 <= k < |mss[i]| ==> mss[i][k].at < from)
  {
    var from := start + WARMUP_DURATION;
    WindowSpans(sts);
    forall i, k | 0 <= i < |mss| && 0 <= k < |mss[i]| && from <= mss[i][k].at
      ensures WindowStart(sts).Some? && WindowStart(sts).value <= mss[i][k].at
    {
      assert Describes(sts[i], mss[i], from) && SpansOne(sts[i], WindowStart(sts), WindowEnd(sts));
      FirstIsEarliest(mss[i], from);
    }
    if i :| WindowStart(sts).Some? && 0 <= i < |sts| && sts[i].steadyStart == WindowStart(sts) {
      WindowOpensAfterWarmup(sts, mss, start);
      assert Describes(sts[i], mss[i], from);
      FirstIsAMove(mss[i], from);
    }
  }

  lemma {:induction false} TotalIsMoved(sts: seq<StreamState>, mss: seq<seq<Move>>, start: int)
    requires MeasuredStreams(sts, mss, start)
    ensures SumTotal(sts) == Sum(mss, Bytes)
  {
    if sts != [] {
      var n := |sts| - 1;
      TotalIsMoved(sts[..n], mss[..n], start);
      assert Describes(sts[n], mss[n], start + WARMUP_DURATION);
    }
  }

  lemma OneLastMove(mss: seq<seq<Move>>, a: int, b: int)
    requires IsLastMove(mss, a) && IsLastMove(mss, b)
    ensures a == b
  {
  }

  lemma OneFirstSteady(mss: seq<seq<Move>>, from: int, a: int, b: int)
    requires IsFirstSteady(mss, from, a) && IsFirstSteady(mss, from, b)
    ensures a == b
  {
  }

  /** There is a figure exactly if no stream failed, some byte moved, and the last of them
      after the start; and every byte moved is counted, with a figure or without. */
  lemma FigureExactly(sts: seq<StreamState>, mss: seq<seq<Move>>, start: int)
    requires MeasuredStreams(sts, mss, start)
    ensures Published(sts, start).fault.NoFault? <==>
              && (forall i :: 0 <= i < |sts| ==> !sts[i].err) && 0 < Sum(mss, Bytes)
              && exists last :: IsLastMove(mss, last) && start < last
    ensures Published(sts, start).sample.bytes == Sum(mss, Bytes)
    ensures !Published(sts, start).fault.NoFault? ==>
              var s := Published(sts, start).sample; s.rate == 0.0 && !s.warmupExcluded && s.elapsed == 0
  {
    TotalIsMoved(sts, mss, start);
    WindowEndMeaning(sts, mss, start);
    if last :| IsLastMove(mss, last) && start < last {
      assert WindowEnd(sts).Some?;
      OneLastMove(mss, last, WindowEnd(sts).value);
    }
  }

  /** The window from `first` to `last` is one to publish: some byte moved in it, and it is a
      quarter of the transfer or more. */
  ghost predicate WorthPublishing(mss: seq<seq<Move>>, start: int, first: int, last: int) {
    first < last && 0 < WindowBytes(mss, first, last) && last - start <= 4 * (last - first)
  }

  /** A figure leaves the warm-up out exactly if the window from the first move after it to
      the last is one to publish. */
  lemma WarmupExcludedExactly(sts: seq<StreamState>, mss: seq<seq<Move>>, start: int)
    requires MeasuredStreams(sts, mss, start) && Published(sts, start).fault.NoFault?
    ensures Published(sts, start).sample.warmupExcluded <==>
              exists first, last ::
                && IsFirstSteady(mss, start + WARMUP_DURATION, first) && IsLastMove(mss, last)
                && WorthPublishing(mss, start, first, last)
  {
    var from := start + WARMUP_DURATION;
    WindowEndMeaning(sts, mss, start);
    WindowStartMeaning(sts, mss, start);
    if WindowStart(sts).Some? {
      WindowSpans(sts);
      WindowOpensAfterWarmup(sts, mss, start);
      SteadyInWindow(sts, mss, start, WindowStart(sts).value, WindowEnd(sts).value);
      assert UsesSteady(sts, start) <==> WorthPublishing(mss, start, WindowStart(sts).value, WindowEnd(sts).value);
    }
    if first, last :|
      && IsFirstSteady(mss, from, first) && IsLastMove(mss, last) && WorthPublishing(mss, start, first, last)
    {
      OneFirstSteady(mss, from, first, WindowStart(sts).value);
      OneLastMove(mss, last, WindowEnd(sts).value);
    }
  }

  lemma CeilingOf(bytes: nat, took: int)
    requires bytes <= MAX_SAMPLE_BYTES && 4 * WARMUP_DURATION <= 3 * took
    ensures Rate(bytes, took) <= 25165824.0
  {
    assert bytes * SECOND <= 25165824 * took;
    assert 25165824.0 * took as real == (25165824 * took) as real;
    RateAtMost(bytes, took, 25165824.0);
  }

  // ----- Reserving before measuring -----

  datatype Reservation = Granted | NoBudget | Unsupported | ReservationFailed

  /** What one target meets: whether the probe is over and how long it has left, what
      the reservation answers, what the streams come to, and whether the figure is taken. */
  datatype Turn = Turn(over: bool, left: Option<int>, reservation: Reservation, sts: seq<StreamState>, start: int,
                       accepted: bool)

  datatype Skip = Taken | SkipNoBudget | SkipNoTime | SkipUnsupported

  datatype TargetFault = NoTargetFault | NotReserved | NotMeasured | NotSubmitted

  datatype TargetResult = TargetResult(sample: Sample, skip: Skip, fault: TargetFault)

  /** What sampling one target after another does outside the prober, in order. */
  datatype Event =
    | Reserved(target: nat, bytes: nat)
    | Transferred(target: nat, bytes: nat)
    | Submitted(target: nat, rate: real, bytes: nat)

  predicate HasTime(turn: Turn, timeout: int) {
    !turn.over && (turn.left.None? || Max(timeout, MIN_TIME_BUDGET) <= turn.left.value)
  }

  /** Each stream keeps to its allowance. */
  ghost predicate Bounded(sts: seq<StreamState>) {
    |sts| == STREAM_COUNT && forall i :: 0 <= i < |sts| ==> sts[i].total <= STREAM_BYTES
  }

  lemma {:induction false} BoundedTotal(sts: seq<StreamState>)
    requires forall i :: 0 <= i < |sts| ==> sts[i].total <= STREAM_BYTES
    ensures SumTotal(sts) <= |sts| * STREAM_BYTES
  {
    if sts != [] {
      BoundedTotal(sts[..|sts| - 1]);
    }
  }

  function ReservedBytes(log: seq<Event>): nat {
    if log == [] then 0
    else ReservedBytes(log[..|log| - 1]) + if log[|log| - 1].Reserved? then log[|log| - 1].bytes else 0
  }

  function TransferredBytes(log: seq<Event>): nat {
    if log == [] then 0
    else TransferredBytes(log[..|log| - 1]) + if log[|log| - 1].Transferred? then log[|log| - 1].bytes else 0
  }

  /** At no moment has more been transferred than was reserved. */
  ghost predicate Covered(log: seq<Event>) {
    forall k :: 0 <= k <= |log| ==> TransferredBytes(log[..k]) <= ReservedBytes(log[..k])
  }

  /** Every transfer is right after a reservation of its own, for the same target; and
      every submission right after the transfer it reports. */
  ghost predicate OwnReservations(log: seq<Event>) {
    && (forall k :: 0 <= k < |log| && log[k].Transferred? ==>
          0 < k && log[k - 1] == Reserved(log[k].target, MAX_SAMPLE_BYTES) && log[k].bytes <= MAX_SAMPLE_BYTES)
    && (forall k :: 0 <= k < |log| && log[k].Submitted? ==>
          0 < k && log[k - 1] == Transferred(log[k].target, log[k].bytes) && 0.0 < log[k].rate)
  }

  lemma OneMoreCovered(log: seq<Event>, e: Event)
    requires Covered(log) && TransferredBytes(log + [e]) <= ReservedBytes(log + [e])
    ensures Covered(log + [e])
  {
    var all := log + [e];
    forall k | 0 <= k <= |all| ensures TransferredBytes(all[..k]) <= ReservedBytes(all[..k]) {
      if k == |all| {
        assert all[..k] == all;
      } else {
        assert all[..k] == log[..k];
      }
    }
  }

  lemma OneMoreOwn(log: seq<Event>, e: Event)
    requires OwnReservations(log)
    requires e.Transferred? ==>
               log != [] && log[|log| - 1] == Reserved(e.target, MAX_SAMPLE_BYTES) && e.bytes <= MAX_SAMPLE_BYTES
    requires e.Submitted? ==> log != [] && log[|log| - 1] == Transferred(e.target, e.bytes) && 0.0 < e.rate
    ensures OwnReservations(log + [e])
  {
  }

  lemma EventBytes(log: seq<Event>, e: Event)
    ensures ReservedBytes([]) == TransferredBytes([]) == 0
    ensures ReservedBytes(log + [e]) == ReservedBytes(log) + if e.Reserved? then e.bytes else 0
    ensures TransferredBytes(log + [e]) == TransferredBytes(log) + if e.Transferred? then e.bytes else 0
  {
    assert (log + [e])[..|log|] == log;
  }

  /** The target is measured: there is time left, and its bytes are granted. */
  predicate Admitted(turn: Turn, timeout: int, reserving: bool) {
    HasTime(turn, timeout) && (reserving ==> turn.reservation.Granted?)
  }

  /** The measurement gave a figure. */
  ghost predicate Usable(turn: Turn) {
    Published(turn.sts, turn.start).fault.NoFault? && 0.0 < Published(turn.sts, turn.start).sample.rate
  }

  ghost function Transfer(target: nat, turn: Turn): Event {
    Transferred(target, Published(turn.sts, turn.start).sample.bytes)
  }

  ghost function Submission(target: nat, turn: Turn): Event {
    Submitted(target, Published(turn.sts, turn.start).sample.rate, Published(turn.sts, turn.start).sample.bytes)
  }

  /** The log once one target has had its turn. */
  ghost function Extended(log: seq<Event>, target: nat, turn: Turn, timeout: int, reserving: bool,
                          submitting: bool): seq<Event> {
    if !Admitted(turn, timeout, reserving) then log
    else
      var reserved := if reserving then log + [Reserved(target, MAX_SAMPLE_BYTES)] else log;
      var measured := reserved + [Transfer(target, turn)];
      if submitting && Usable(turn) then measured + [Submission(target, turn)] else measured
  }

  ghost function Log(turns: seq<Turn>, timeout: int, reserving: bool, submitting: bool): seq<Event> {
    if turns == [] then []
    else
      var n := |turns| - 1;
      Extended(Log(turns[..n], timeout, reserving, submitting), n, turns[n], timeout, reserving, submitting)
  }

  /** What one target comes to. */
  ghost function Outcome(turn: Turn, timeout: int, reserving: bool, submitting: bool): TargetResult {
    if !HasTime(turn, timeout) then TargetResult(NO_SAMPLE, SkipNoTime, NoTargetFault)
    else if reserving && turn.reservation.NoBudget? then TargetResult(NO_SAMPLE, SkipNoBudget, NoTargetFault)
    else if reserving && turn.reservation.Unsupported? then TargetResult(NO_SAMPLE, SkipUnsupported, NoTargetFault)
    else if reserving && turn.reservation.ReservationFailed? then TargetResult(NO_SAMPLE, Taken, NotReserved)
    else
      TargetResult(Published(turn.sts, turn.start).sample, Taken,
                   if !Usable(turn) then NotMeasured
                   else if submitting && !turn.accepted then NotSubmitted
                   else NoTargetFault)
  }

  /** The probe is over, or has less time left than the measurement may take or than any may. */
  predicate OutOfTime(turn: Turn, timeout: int) {
    turn.over || (turn.left.Some? && (turn.left.value < timeout || turn.left.value < MIN_TIME_BUDGET))
  }

  /** What a target's result says, and when: it is skipped exactly if time, or the answer to its
      reservation, rules a measurement out, and then has no figure; and a fault is one of the
      reservation, the measurement or the submission, in that order. */
  lemma OutcomeMeaning(turn: Turn, timeout: int, reserving: bool, submitting: bool)
    ensures var r, out := Outcome(turn, timeout, reserving, submitting), OutOfTime(turn, timeout);
            var asked, m := if reserving then turn.reservation else Granted, Published(turn.sts, turn.start);
            && (r.skip.SkipNoTime? <==> out)
            && (r.skip.SkipNoBudget? <==> !out && asked.NoBudget?)
            && (r.skip.SkipUnsupported? <==> !out && asked.Unsupported?)
            && (r.fault.NotReserved? <==> !out && asked.ReservationFailed?)
            && (r.fault.NotMeasured? <==> !out && asked.Granted? && (m.fault != NoFault || m.sample.rate <= 0.0))
            && (r.fault.NotSubmitted? <==>
                  && !out && asked.Granted? && m.fault == NoFault && 0.0 < m.sample.rate
                  && submitting && !turn.accepted)
            && r.sample == if !out && asked.Granted? then m.sample else NO_SAMPLE
  {
  }

  lemma ExtendedTransfers(log: seq<Event>, target: nat, turn: Turn, timeout: int, reserving: bool, submitting: bool,
                          e: Event)
    requires !e.Submitted?
    ensures e in Extended(log, target, turn, timeout, reserving, submitting) <==>
              || e in log
              || (Admitted(turn, timeout, reserving)
                  && (e == Transfer(target, turn) || (reserving && e == Reserved(target, MAX_SAMPLE_BYTES))))
  {
  }

  /** A target is measured exactly if its result says neither that it was skipped nor that its
      reservation failed, and its bytes are reserved just then. */
  lemma {:induction false} MeasuredExactly(turns: seq<Turn>, timeout: int, reserving: bool, submitting: bool, e: Event)
    requires !e.Submitted?
    ensures e in Log(turns, timeout, reserving, submitting) <==>
              && e.target < |turns|
              && var r := Outcome(turns[e.target], timeout, reserving, submitting);
                 && r.skip.Taken? && !r.fault.NotReserved?
                 && (e == Transferred(e.target, r.sample.bytes)
                     || (reserving && e == Reserved(e.target, MAX_SAMPLE_BYTES)))
  {
    if turns != [] {
      var n := |turns| - 1;
      MeasuredExactly(turns[..n], timeout, reserving, submitting, e);
      ExtendedTransfers(Log(turns[..n], timeout, reserving, submitting), n, turns[n], timeout, reserving, submitting,
                        e);
      OutcomeMeaning(turns[n], timeout, reserving, submitting);
    }
  }

  method SampleOne(target: nat, turn: Turn, timeout: int, reserving: bool, submitting: bool, before: seq<Event>)
    returns (result: TargetResult, log: seq<Event>)
    ensures log == Extended(before, target, turn, timeout, reserving, submitting)
    ensures result == Outcome(turn, timeout, reserving, submitting)
  {
    log := before;
    if !HasTime(turn, timeout) {
      return TargetResult(NO_SAMPLE, SkipNoTime, NoTargetFault), log;
    }
    if reserving {
      if !turn.reservation.Granted? {
        if turn.reservation.NoBudget? {
          return TargetResult(NO_SAMPLE, SkipNoBudget, NoTargetFault), log;
        }
        if turn.reservation.Unsupported? {
          return TargetResult(NO_SAMPLE, SkipUnsupported, NoTargetFault), log;
        }
        return TargetResult(NO_SAMPLE, Taken, NotReserved), log;
      }
      log := log + [Reserved(target, MAX_SAMPLE_BYTES)];
    }
    var m := Aggregate(turn.sts, turn.start);
    log := log + [Transferred(target, m.sample.bytes)];
    if !m.fault.NoFault? || m.sample.rate <= 0.0 {
      return TargetResult(m.sample, Taken, NotMeasured), log;
    }
    if submitting {
      log := log + [Submitted(target, m.sample.rate, m.sample.bytes)];
      if !turn.accepted {
        return TargetResult(m.sample, Taken, NotSubmitted), log;
      }
    }
    return TargetResult(m.sample, Taken, NoTargetFault), log;
  }

  /** Samples every target, one after another. */
  method SampleTargets(turns: seq<Turn>, timeout: int, reserving: bool, submitting: bool)
    returns (results: seq<TargetResult>, log: seq<Event>)
    ensures |results| == |turns|
    ensures forall i :: 0 <= i < |turns| ==> results[i] == Outcome(turns[i], timeout, reserving, submitting)
    ensures log == Log(turns, timeout, reserving, submitting)
  {
    results, log := [], [];
    for i := 0 to |turns|
      invariant |results| == i && log == Log(turns[..i], timeout, reserving, submitting)
      invariant forall j :: 0 <= j < i ==> results[j] == Outcome(turns[j], timeout, reserving, submitting)
    {
      var r: TargetResult;
      r, log := SampleOne(i, turns[i], timeout, reserving, submitting, log);
      assert turns[..i + 1][..i] == turns[..i];
      results := results + [r];
    }
    assert turns[..|turns|] == turns;
  }

  lemma TransferBounded(target: nat, turn: Turn)
    requires Bounded(turn.sts)
    ensures Transfer(target, turn).bytes <= MAX_SAMPLE_BYTES
  {
    BoundedTotal(turn.sts);
    assert Transfer(target, turn).bytes <= SumTotal(turn.sts);
  }

  ghost predicate Sound(log: seq<Event>) {
    Covered(log) && OwnReservations(log) && TransferredBytes(log) <= ReservedBytes(log)
  }

  lemma OneMoreSound(log: seq<Event>, e: Event, room: nat)
    requires Sound(log) && TransferredBytes(log) + room <= ReservedBytes(log)
    requires e.Transferred? ==> log != [] && log[|log| - 1] == Reserved(e.target, MAX_SAMPLE_BYTES)
    requires e.Transferred? ==> e.bytes <= MAX_SAMPLE_BYTES && e.bytes <= room
    requires e.Submitted? ==> log != [] && log[|log| - 1] == Transferred(e.target, e.bytes) && 0.0 < e.rate
    ensures Sound(log + [e])
    ensures e.Reserved? ==> TransferredBytes(log + [e]) + e.bytes <= ReservedBytes(log + [e])
  {
    EventBytes(log, e);
    OneMoreCovered(log, e);
    OneMoreOwn(log, e);
  }

  lemma ExtendedSound(log: seq<Event>, target: nat, turn: Turn, timeout: int, submitting: bool)
    requires Sound(log) && Bounded(turn.sts)
    ensures Sound(Extended(log, target, turn, timeout, true, submitting))
  {
    if Admitted(turn, timeout, true) {
      TransferBounded(target, turn);
      var reservation, transfer := Reserved(target, MAX_SAMPLE_BYTES), Transfer(target, turn);
      OneMoreSound(log, reservation, 0);
      OneMoreSound(log + [reservation], transfer, MAX_SAMPLE_BYTES);
      if submitting && Usable(turn) {
        OneMoreSound(log + [reservation] + [transfer], Submission(target, turn), 0);
      }
    }
  }

  /** With a reserver, over any targets and however each turns out: no measurement starts
      without a successful reservation of its own, and at every moment no more has been
      moved than reserved. */
  lemma {:induction false} NothingUnreserved(turns: seq<Turn>, timeout: int, submitting: bool)
    requires forall i :: 0 <= i < |turns| ==> Bounded(turns[i].sts)
    ensures Sound(Log(turns, timeout, true, submitting))
  {
    if turns != [] {
      var n := |turns| - 1;
      NothingUnreserved(turns[..n], timeout, submitting);
      ExtendedSound(Log(turns[..n], timeout, true, submitting), n, turns[n], timeout, submitting);
    }
  }

  lemma DrainedStreamsBounded(sts: seq<StreamState>, mss: seq<seq<Move>>, start: int)
    requires MeasuredStreams(sts, mss, start) && |sts| == STREAM_COUNT
    ensures Bounded(sts)
  {
    forall i | 0 <= i < |sts| ensures sts[i].total <= STREAM_BYTES {
      assert Describes(sts[i], mss[i], start + WARMUP_DURATION);
    }
  }

  /** The measurement a target's turn comes to was made of streams that were drained. */
  ghost predicate MeasuredTurn(turn: Turn) {
    |turn.sts| == STREAM_COUNT && exists mss :: MeasuredStreams(turn.sts, mss, turn.start)
  }

  /** So it is of every measurement that is made: its streams keep to their allowances. */
  lemma NoMeasurementUnreserved(turns: seq<Turn>, timeout: int, submitting: bool)
    requires forall i :: 0 <= i < |turns| ==> MeasuredTurn(turns[i])
    ensures Sound(Log(turns, timeout, true, submitting))
  {
    forall i | 0 <= i < |turns| ensures Bounded(turns[i].sts) {
      assert MeasuredTurn(turns[i]);
      var mss :| MeasuredStreams(turns[i].sts, mss, turns[i].start);
      DrainedStreamsBounded(turns[i].sts, mss, turns[i].start);
    }
    NothingUnreserved(turns, timeout, submitting);
  }

  lemma ExtendedSubmits(log: seq<Event>, target: nat, turn: Turn, timeout: int, reserving: bool, submitting: bool,
                        e: Event)
    requires e.Submitted?
    ensures e in Extended(log, target, turn, timeout, reserving, submitting) <==>
              || e in log
              || (Admitted(turn, timeout, reserving) && submitting && Usable(turn) && e == Submission(target, turn))
  {
  }

  /** What is submitted is, for each target in turn, the figure its own result holds, and
      only if it has one: nothing is combined, and nothing left out. */
  lemma {:induction false} FiguresSubmitted(turns: seq<Turn>, timeout: int, reserving: bool, e: Event)
    requires e.Submitted?
    ensures e in Log(turns, timeout, reserving, true) <==>
              && e.target < |turns|
              && var r := Outcome(turns[e.target], timeout, reserving, true);
                 && r.skip.Taken? && (r.fault.NoTargetFault? || r.fault.NotSubmitted?)
                 && e == Submitted(e.target, r.sample.rate, r.sample.bytes)
  {
    if turns != [] {
      var n := |turns| - 1;
      FiguresSubmitted(turns[..n], timeout, reserving, e);
      ExtendedSubmits(Log(turns[..n], timeout, reserving, true), n, turns[n], timeout, reserving, true, e);
    }
  }
}
