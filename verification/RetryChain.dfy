/** One load's retry chain: the spacing between its attempts, the fitting of each
    wait inside the run's budget, and the outcome its attempts add up to. */
module RetryChain {
  import opened Arithmetic
  import opened Common

  // ----- Settings -----

  const DEFAULT_PER_REQUEST_TIMEOUT := 10 * SECOND
  const DEFAULT_CONCURRENCY := 6
  const DEFAULT_LOAD_ATTEMPTS := 3
  const DEFAULT_LOAD_RETRY_MEAN_INTERVAL := 5 * 60 * SECOND
  const DEFAULT_IP_ECHO_TIMEOUT := 60 * SECOND

  /** A run's settings, as given: zero or less means the default. */
  datatype Options = Options(perRequestTimeout: int, budget: int, concurrency: int, loadAttempts: int,
                             loadRetryMeanInterval: int, echo: bool, ipEchoTimeout: int)
  {
    function Timeout(): (t: int) ensures 0 < t {
      if 0 < perRequestTimeout then perRequestTimeout else DEFAULT_PER_REQUEST_TIMEOUT
    }

    function Slots(): (c: int) ensures 0 < c {
      if 0 < concurrency then concurrency else DEFAULT_CONCURRENCY
    }

    function Attempts(): (a: int) ensures 0 < a {
      if 0 < loadAttempts then loadAttempts else DEFAULT_LOAD_ATTEMPTS
    }

    function Mean(): (m: int) ensures 0 < m {
      if 0 < loadRetryMeanInterval then loadRetryMeanInterval else DEFAULT_LOAD_RETRY_MEAN_INTERVAL
    }

    function WarmUp(): (e: int) ensures 0 <= e {
      if !echo then 0 else if 0 < ipEchoTimeout then ipEchoTimeout else DEFAULT_IP_ECHO_TIMEOUT
    }

    /** In how many rounds of the slots every load's attempt is made once. */
    function Rounds(loads: int): int {
      (Max(loads, 1) + Slots() - 1) / Slots()
    }

    /** The bound a run takes when it is given none. */
    function RunBudget(loads: int): int {
      Attempts() * Rounds(loads) * Timeout()
      + (Attempts() - 1) * 3 * Mean()
      + WarmUp()
    }

    function Budget(loads: int): int {
      if 0 < budget then budget else RunBudget(loads)
    }
  }

  /** A setting that is positive is what the run goes by, and the default what it goes by
      otherwise; without an echo there is no warm-up to wait for. */
  lemma SettingsMeaning(o: Options)
    ensures o.Timeout() == if 0 < o.perRequestTimeout then o.perRequestTimeout else 10 * SECOND
    ensures o.Slots() == if 0 < o.concurrency then o.concurrency else 6
    ensures o.Attempts() == if 0 < o.loadAttempts then o.loadAttempts else 3
    ensures o.Mean() == if 0 < o.loadRetryMeanInterval then o.loadRetryMeanInterval else 300 * SECOND
    ensures forall loads :: o.Budget(loads) == if 0 < o.budget then o.budget else o.RunBudget(loads)
    ensures !o.echo ==> o.WarmUp() == 0
    ensures o.echo ==> o.WarmUp() == if 0 < o.ipEchoTimeout then o.ipEchoTimeout else 60 * SECOND
  {
  }

  // ----- Spacing -----

  /** The wait that a draw stands for: cut at three, then scaled by the mean. */
  function RetryDelay(draw: real, mean: int): int {
    if mean <= 0 || draw <= 0.0 then 0
    else if 3.0 <= draw then 3 * mean
    else (draw * mean as real).Floor
  }

  lemma ScaleBelow(draw: real, cap: real, m: real)
    requires 0.0 < draw < cap && 0.0 < m
    ensures 0.0 < draw * m < cap * m
  {
    assert 0.0 < (cap - draw) * m;
    assert (cap - draw) * m == cap * m - draw * m;
  }

  lemma RetryDelayRange(draw: real, mean: int)
    requires 0 < mean
    ensures 0 <= RetryDelay(draw, mean) <= 3 * mean
    ensures RetryDelay(draw, mean) == 3 * mean <==> 3.0 <= draw
    ensures 0.0 < draw < 3.0 ==>
              RetryDelay(draw, mean) as real <= draw * mean as real < RetryDelay(draw, mean) as real + 1.0
    ensures draw <= 0.0 ==> RetryDelay(draw, mean) == 0
  {
    if 0.0 < draw < 3.0 {
      ScaleBelow(draw, 3.0, mean as real);
      var scaled := draw * mean as real;
      assert 0.0 < scaled < (3 * mean) as real;
      assert RetryDelay(draw, mean) == scaled.Floor;
    }
  }

  /** Division of durations: truncated toward zero. */
  function Truncated(x: int, n: int): int
    requires 0 < n
  {
    if 0 <= x then x / n else -(-x / n)
  }

  lemma TruncatedAtLeast(x: int, n: int, q: int)
    requires 0 < n && 0 <= q && q * n <= x
    ensures q <= Truncated(x, n)
  {
    MulNonNegative(q, n);
    QuotientAtLeast(x, n, q);
  }

  lemma TruncatedAtMost(x: int, n: int)
    requires 0 < n && 0 < Truncated(x, n)
    ensures Truncated(x, n) * n <= x
  {
    if x < 0 {
      QuotientAtLeast(-x, n, 0);
    }
  }

  lemma TruncatedNonNegative(x: int, n: int)
    requires 0 < n
    ensures 0 <= Truncated(x, n) <==> -n < x
  {
    if x < 0 {
      if -n < x {
        QuotientIs(-x, n, 0);
      } else {
        QuotientAtLeast(-x, n, 1);
      }
    } else {
      QuotientAtLeast(x, n, 0);
    }
  }

  // ----- Fitting a wait inside the budget -----

  datatype Fit = GiveUp | Wait(delay: int)

  /** What is left once every remaining attempt has kept one timeout. */
  function Slack(o: Options, deadline: int, now: int, attempt: int): int {
    deadline - now - (o.Attempts() - attempt + 1) * o.Timeout()
  }

  /** One remaining wait's even share of the slack. */
  function Share(o: Options, deadline: int, now: int, attempt: int): int
    requires attempt <= o.Attempts()
  {
    Truncated(Slack(o, deadline, now, attempt), o.Attempts() - attempt + 1)
  }

  function Fitted(o: Options, deadline: int, now: int, attempt: int, draw: real): Fit
    requires attempt <= o.Attempts()
  {
    var delay := RetryDelay(draw, o.Mean());
    var share := Share(o, deadline, now, attempt);
    if share < delay then
      if share <= 0 then GiveUp else Wait(share)
    else
      Wait(delay)
  }

  /** With room for the longest spacing before every remaining attempt, the wait is
      the one drawn. */
  lemma RoomForTheDraw(o: Options, deadline: int, now: int, attempt: int, draw: real)
    requires attempt <= o.Attempts()
    requires (o.Attempts() - attempt + 1) * (o.Timeout() + 3 * o.Mean()) <= deadline - now
    ensures Fitted(o, deadline, now, attempt, draw) == Wait(RetryDelay(draw, o.Mean()))
  {
    var left, cap := o.Attempts() - attempt + 1, 3 * o.Mean();
    assert left * (o.Timeout() + cap) == left * o.Timeout() + cap * left;
    TruncatedAtLeast(Slack(o, deadline, now, attempt), left, cap);
    RetryDelayRange(draw, o.Mean());
  }

  /** When the drawn wait is no wait at all, truncation lets the attempt through with
      less than a timeout left for each remaining one: down to a shortfall of under
      one unit an attempt. */
  lemma NoWaitIsFittedByTruncation(o: Options, deadline: int, now: int, attempt: int, draw: real)
    requires attempt <= o.Attempts() && RetryDelay(draw, o.Mean()) == 0
    ensures Fitted(o, deadline, now, attempt, draw) ==
              if -(o.Attempts() - attempt + 1) < Slack(o, deadline, now, attempt) then Wait(0) else GiveUp
  {
    TruncatedNonNegative(Slack(o, deadline, now, attempt), o.Attempts() - attempt + 1);
  }

  /** Every remaining attempt, and this one, keeps its timeout after the wait before it. */
  predicate TimeoutsKept(o: Options, deadline: int, now: int, attempt: int, draw: real)
    requires attempt <= o.Attempts()
  {
    var fit := Fitted(o, deadline, now, attempt, draw);
    fit.Wait? ==> now + fit.delay + (o.Attempts() - attempt + 1) * o.Timeout() <= deadline
  }

  /** Exactly when a fitted wait leaves every remaining attempt its timeout: always, but
      for a draw that comes to no wait when the room left is short of the timeouts by
      less than one unit of time an attempt. */
  lemma TimeoutsKeptExactly(o: Options, deadline: int, now: int, attempt: int, draw: real)
    requires attempt <= o.Attempts()
    ensures TimeoutsKept(o, deadline, now, attempt, draw) <==>
              !(RetryDelay(draw, o.Mean()) == 0
                && -(o.Attempts() - attempt + 1) < Slack(o, deadline, now, attempt) < 0)
  {
    var left, share := o.Attempts() - attempt + 1, Share(o, deadline, now, attempt);
    RetryDelayRange(draw, o.Mean());
    if RetryDelay(draw, o.Mean()) == 0 {
      NoWaitIsFittedByTruncation(o, deadline, now, attempt, draw);
    } else if 0 < share {
      TruncatedAtMost(Slack(o, deadline, now, attempt), left);
      MulOrder(1, left, share);
    }
  }

  /** Such a draw: one nanosecond short of two timeouts, the second of three attempts goes
      on at once, and the two that are left cannot both have a whole timeout. */
  lemma TimeoutsNotKept()
    ensures var o := Options(0, 0, 0, 0, 0, false, 0);
            !TimeoutsKept(o, 2 * o.Timeout() - 1, 0, 2, 0.0)
  {
    TimeoutsKeptExactly(Options(0, 0, 0, 0, 0, false, 0), 2 * DEFAULT_PER_REQUEST_TIMEOUT - 1, 0, 2, 0.0);
  }

  /** Exactly when a wait that was drawn is had in full: if every remaining attempt can
      be preceded by as long a wait and keep its timeout. */
  lemma FullWaitExactly(o: Options, deadline: int, now: int, attempt: int, draw: real)
    requires attempt <= o.Attempts() && 0 < RetryDelay(draw, o.Mean())
    ensures Fitted(o, deadline, now, attempt, draw) == Wait(RetryDelay(draw, o.Mean())) <==>
              (o.Attempts() - attempt + 1) * (o.Timeout() + RetryDelay(draw, o.Mean())) <= deadline - now
  {
    var left, delay := o.Attempts() - attempt + 1, RetryDelay(draw, o.Mean());
    var slack := Slack(o, deadline, now, attempt);
    assert left * (o.Timeout() + delay) == left * o.Timeout() + delay * left;
    if delay * left <= slack {
      TruncatedAtLeast(slack, left, delay);
    } else if delay <= Truncated(slack, left) {
      TruncatedAtMost(slack, left);
      MulOrder(delay, Truncated(slack, left), left);
    }
  }

  // ----- The outcome -----

  /** One attempt that was spent. */
  datatype Attempt =
    | Passed
    | TlsRejected(err: string)
    | Failed(err: string, tunnelLost: bool)
    | NoTunnel(err: string)

  predicate Retryable(a: Attempt) {
    a.Failed? || a.NoTunnel?
  }

  /** The attempt had no live tunnel: none could be had, or it was lost under it. */
  predicate Tunnelless(a: Attempt) {
    a.NoTunnel? || (a.Failed? && a.tunnelLost)
  }

  const NO_TUNNEL := "no tunnel: "

  function Error(a: Attempt): string {
    match a
    case Passed => ""
    case TlsRejected(e) => e
    case Failed(e, _) => e
    case NoTunnel(e) => NO_TUNNEL + e
  }

  datatype CheckResult = CheckResult(name: string, class_: string, ok: bool, err: string, tlsFailure: bool,
                                     attempts: nat, lastFailure: string, notMeasured: bool, canary: bool)

  /** The error of the last attempt that did not pass. */
  function LastFailure(h: seq<Attempt>): string {
    if h == [] then "" else if h[|h| - 1].Passed? then LastFailure(h[..|h| - 1]) else Error(h[|h| - 1])
  }

  /** What a load that spent these attempts is recorded as.  `cause` says why the run
      ended, for a load that spent none. */
  function Verdict(name: string, class_: string, h: seq<Attempt>, cause: string): CheckResult {
    if h == [] then CheckResult(name, class_, false, cause, false, 0, cause, false, false)
    else
      var a := h[|h| - 1];
      CheckResult(name, class_, a.Passed?, Error(a), a.TlsRejected?, |h|, LastFailure(h), Tunnelless(a), false)
  }

  /** A chain's attempts: every one but the last was worth retrying. */
  ghost predicate IsChain(h: seq<Attempt>, attempts: int) {
    |h| <= attempts && forall k :: 0 <= k < |h| - 1 ==> Retryable(h[k])
  }

  /** A load is Ok exactly when some attempt passed; a TLS failure is terminal and
      never not measured; a load is not measured exactly when nothing passed and the
      last attempt it spent had no live tunnel; and a load that is not Ok reports its
      last failure. */
  lemma VerdictMeaning(name: string, class_: string, h: seq<Attempt>, cause: string, attempts: int)
    requires IsChain(h, attempts)
    ensures var r := Verdict(name, class_, h, cause);
            && (r.ok <==> exists k :: 0 <= k < |h| && h[k].Passed?)
            && (r.tlsFailure <==> exists k :: 0 <= k < |h| && h[k].TlsRejected?)
            && (r.tlsFailure ==> !r.ok && !r.notMeasured)
            && (r.notMeasured <==>
                  h != [] && (h[|h| - 1].NoTunnel? || (h[|h| - 1].Failed? && h[|h| - 1].tunnelLost)))
            && (r.notMeasured ==> forall k :: 0 <= k < |h| ==> !h[k].Passed? && !h[k].TlsRejected?)
            && (forall k :: 0 <= k < |h| - 1 ==> h[k].Failed? || h[k].NoTunnel?)
            && (!r.ok ==> r.err == r.lastFailure == if h == [] then cause else Error(h[|h| - 1]))
            && (h != [] && h[|h| - 1].NoTunnel? ==> r.err == "no tunnel: " + h[|h| - 1].err)
            && (h != [] && (h[|h| - 1].Failed? || h[|h| - 1].TlsRejected?) ==> r.err == h[|h| - 1].err)
            && (r.ok ==> r.err == "" && (1 < |h| ==> r.lastFailure == Error(h[|h| - 2])))
            && r.attempts == |h| <= Max(attempts, 0)
  {
    if h != [] && h[|h| - 1].Passed? && 1 < |h| {
      assert h[..|h| - 1][|h| - 2] == h[|h| - 2] && Retryable(h[|h| - 2]);
      assert LastFailure(h[..|h| - 1]) == Error(h[|h| - 2]);
    }
    if k :| 0 <= k < |h| && !Retryable(h[k]) {
      assert k == |h| - 1;
    }
  }

  // ----- The loop -----

  datatype Fetch = Pass | Tls(err: string) | Fail(err: string)

  /** What asking the path for a client came to: `over` says the run had ended. */
  datatype Live = NoClient(err: string, over: bool) | Client(fetch: Fetch, tunnelLost: bool)

  /** What one attempt meets: the clock and the draw its wait is fitted with, whether
      the wait or the run ended first, and how its fetch went. */
  datatype Trial = Trial(now: int, draw: real, sleepEnded: bool, ended: bool, live: Live)

  /** One fetch's result. */
  function Fetched(name: string, class_: string, fetch: Fetch): CheckResult {
    match fetch
    case Pass => CheckResult(name, class_, true, "", false, 0, "", false, false)
    case Tls(e) => CheckResult(name, class_, false, e, true, 0, "", false, false)
    case Fail(e) => CheckResult(name, class_, false, e, false, 0, "", false, false)
  }

  /** The attempt a client, or the lack of one, came to. */
  function Made(live: Live): Attempt {
    match live
    case NoClient(e, _) => NoTunnel(e)
    case Client(Pass, _) => Passed
    case Client(Tls(e), _) => TlsRejected(e)
    case Client(Fail(e), lost) => Failed(e, lost)
  }

  predicate GivesUp(o: Options, deadline: int, t: Trial, attempt: nat)
    requires attempt <= o.Attempts()
  {
    || (1 < attempt && (Fitted(o, deadline, t.now, attempt, t.draw).GiveUp? || t.sleepEnded))
    || t.ended
    || (t.live.NoClient? && t.live.over)
  }

  /** The attempts a load spends, `spent` of them before `attempt`. */
  function History(o: Options, deadline: int, trials: seq<Trial>, attempt: nat, spent: seq<Attempt>): seq<Attempt>
    requires 0 < attempt && |trials| == o.Attempts()
    decreases |trials| + 1 - attempt
  {
    if o.Attempts() < attempt || GivesUp(o, deadline, trials[attempt - 1], attempt) then spent
    else
      var a := Made(trials[attempt - 1].live);
      if Retryable(a) then History(o, deadline, trials, attempt + 1, spent + [a]) else spent + [a]
  }

  lemma {:induction false} HistoryIsChain(o: Options, deadline: int, trials: seq<Trial>, attempt: nat,
                                          spent: seq<Attempt>)
    requires 0 < attempt <= o.Attempts() + 1 && |trials| == o.Attempts()
    requires |spent| == attempt - 1 && forall k :: 0 <= k < |spent| ==> Retryable(spent[k])
    ensures IsChain(History(o, deadline, trials, attempt, spent), o.Attempts())
    decreases |trials| + 1 - attempt
  {
    if attempt <= o.Attempts() && Retryable(Made(trials[attempt - 1].live)) {
      HistoryIsChain(o, deadline, trials, attempt + 1, spent + [Made(trials[attempt - 1].live)]);
    }
  }

  /** Attempt `n`, if it comes to it, is made: its wait is fitted and is not cut off by the end
      of the run, the run has not ended by then, nor while a client was asked for in vain. */
  ghost predicate IsMade(o: Options, deadline: int, trials: seq<Trial>, n: nat)
    requires 0 < n <= o.Attempts() == |trials|
  {
    var t := trials[n - 1];
    && (1 < n ==> Fitted(o, deadline, t.now, n, t.draw).Wait? && !t.sleepEnded)
    && !t.ended && !(t.live.NoClient? && t.live.over)
  }

  /** What a trial is recorded as once it is spent: what its fetch came to, and for a failed one
      whether its tunnel was lost, or that it had no client. */
  ghost predicate IsRecordOf(a: Attempt, t: Trial) {
    match t.live
    case NoClient(e, _) => a == NoTunnel(e)
    case Client(Pass, _) => a == Passed
    case Client(Tls(e), _) => a == TlsRejected(e)
    case Client(Fail(e), lost) => a == Failed(e, lost)
  }

  ghost predicate AllMade(o: Options, deadline: int, trials: seq<Trial>, h: seq<Attempt>)
    requires |h| <= o.Attempts() == |trials|
  {
    forall k :: 0 <= k < |h| ==> MadeAt(o, deadline, trials, h, k)
  }

  ghost predicate MadeAt(o: Options, deadline: int, trials: seq<Trial>, h: seq<Attempt>, k: nat)
    requires k < |h| <= o.Attempts() == |trials|
  {
    IsMade(o, deadline, trials, k + 1) && IsRecordOf(h[k], trials[k])
  }

  lemma AllMadeNext(o: Options, deadline: int, trials: seq<Trial>, h: seq<Attempt>, a: Attempt)
    requires |h| < o.Attempts() == |trials| && AllMade(o, deadline, trials, h)
    requires IsMade(o, deadline, trials, |h| + 1) && IsRecordOf(a, trials[|h|])
    ensures AllMade(o, deadline, trials, h + [a])
  {
    var all := h + [a];
    forall k | 0 <= k < |all| ensures MadeAt(o, deadline, trials, all, k) {
      assert k < |h| ==> MadeAt(o, deadline, trials, h, k) && all[k] == h[k];
    }
  }

  /** The attempts `h` are those that are spent: each is made and recorded, none but the last
      passed or failed TLS, and after the last there is none left, none is wanted, or the next
      is not made. */
  ghost predicate IsSpent(o: Options, deadline: int, trials: seq<Trial>, h: seq<Attempt>)
    requires |trials| == o.Attempts()
  {
    && |h| <= o.Attempts() && AllMade(o, deadline, trials, h)
    && (forall k :: 0 <= k < |h| - 1 ==> !h[k].Passed? && !h[k].TlsRejected?)
    && (|h| == o.Attempts() || (h != [] && (h[|h| - 1].Passed? || h[|h| - 1].TlsRejected?))
        || !IsMade(o, deadline, trials, |h| + 1))
  }

  lemma {:induction false} SpentFrom(o: Options, deadline: int, trials: seq<Trial>, attempt: nat, spent: seq<Attempt>)
    requires 0 < attempt <= o.Attempts() + 1 && |trials| == o.Attempts() && |spent| == attempt - 1
    requires AllMade(o, deadline, trials, spent)
    requires forall k :: 0 <= k < |spent| ==> !spent[k].Passed? && !spent[k].TlsRejected?
    ensures IsSpent(o, deadline, trials, History(o, deadline, trials, attempt, spent))
    decreases |trials| + 1 - attempt
  {
    if attempt <= o.Attempts() && IsMade(o, deadline, trials, attempt) {
      var a := Made(trials[attempt - 1].live);
      var now := spent + [a];
      AllMadeNext(o, deadline, trials, spent, a);
      if Retryable(a) {
        SpentFrom(o, deadline, trials, attempt + 1, now);
      }
    }
  }

  /** Which attempts a load spends, and as what. */
  lemma HistoryIsSpent(o: Options, deadline: int, trials: seq<Trial>)
    requires |trials| == o.Attempts()
    ensures IsSpent(o, deadline, trials, History(o, deadline, trials, 1, []))
  {
    SpentFrom(o, deadline, trials, 1, []);
  }

  /** What the loop keeps of the attempts it has spent. */
  ghost predicate Carries(r: CheckResult, lastFailure: string, tunnelGone: bool, name: string, class_: string,
                          h: seq<Attempt>)
  {
    if h == [] then
      r == CheckResult(name, class_, false, "", false, 0, "", false, false) && lastFailure == "" && !tunnelGone
    else
      var a := h[|h| - 1];
      && r == CheckResult(name, class_, a.Passed?, Error(a), a.TlsRejected?, |h|, "", false, false)
      && lastFailure == LastFailure(h)
      && tunnelGone == Tunnelless(a)
  }

  lemma CarriedVerdict(r: CheckResult, lastFailure: string, tunnelGone: bool, name: string, class_: string,
                       h: seq<Attempt>, cause: string)
    requires Carries(r, lastFailure, tunnelGone, name, class_, h)
    ensures (r.attempts == 0 && r.err == "") == (h == [])
    ensures Verdict(name, class_, h, cause) ==
              r.(err := if h == [] then cause else r.err,
                 lastFailure := if h == [] then cause else lastFailure,
                 notMeasured := tunnelGone && !r.ok)
  {
  }

  lemma CarriesOneMore(h: seq<Attempt>, a: Attempt)
    ensures LastFailure(h + [a]) == if a.Passed? then LastFailure(h) else Error(a)
  {
    assert (h + [a])[..|h|] == h;
  }

  /** The retry loop, proved to record exactly the verdict of the history its trials make. */
  method Load(o: Options, deadline: int, name: string, class_: string, trials: seq<Trial>, cause: string)
    returns (result: CheckResult)
    requires |trials| == o.Attempts()
    ensures result == Verdict(name, class_, History(o, deadline, trials, 1, []), cause)
  {
    result := CheckResult(name, class_, false, "", false, 0, "", false, false);
    var lastFailure := "";
    var tunnelGone := false;
    ghost var all := History(o, deadline, trials, 1, []);
    ghost var spent: seq<Attempt> := [];
    var attempt := 1;
    while attempt <= o.Attempts()
      invariant 1 <= attempt <= o.Attempts() + 1
      invariant |spent| == attempt - 1 && all == History(o, deadline, trials, attempt, spent)
      invariant Carries(result, lastFailure, tunnelGone, name, class_, spent)
    {
      var t := trials[attempt - 1];
      if 1 < attempt {
        if Fitted(o, deadline, t.now, attempt, t.draw).GiveUp? || t.sleepEnded {
          break;
        }
      }
      if t.ended {
        break;
      }
      if t.live.NoClient? && t.live.over {
        break;
      }
      ghost var a := Made(t.live);
      CarriesOneMore(spent, a);
      spent := spent + [a];
      if t.live.NoClient? {
        result := CheckResult(name, class_, false, NO_TUNNEL + t.live.err, false, attempt, "", false, false);
        lastFailure := result.err;
        tunnelGone := true;
      } else {
        result := Fetched(name, class_, t.live.fetch).(attempts := attempt);
        if result.ok || result.tlsFailure {
          tunnelGone := false;
          if !result.ok {
            lastFailure := result.err;
          }
          break;
        }
        lastFailure := result.err;
        tunnelGone := t.live.tunnelLost;
      }
      attempt := attempt + 1;
    }
    CarriedVerdict(result, lastFailure, tunnelGone, name, class_, all, cause);
    if result.attempts == 0 && result.err == "" {
      result := result.(err := cause);
      lastFailure := result.err;
    }
    result := result.(lastFailure := lastFailure, notMeasured := tunnelGone && !result.ok);
  }

  // ----- A tight budget -----

  /** The wait before an attempt, as fitted. */
  function WaitBefore(o: Options, deadline: int, trials: seq<Trial>, attempt: nat): int
    requires 0 < attempt <= o.Attempts() == |trials|
  {
    var fit := Fitted(o, deadline, trials[attempt - 1].now, attempt, trials[attempt - 1].draw);
    if fit.GiveUp? then 0 else fit.delay
  }

  function ShareBefore(o: Options, deadline: int, trials: seq<Trial>, attempt: nat): int
    requires 0 < attempt <= o.Attempts() == |trials|
  {
    Share(o, deadline, trials[attempt - 1].now, attempt)
  }

  /** The next wait is fitted no later than one wait and one timeout after this one
      was: the attempt between them, its wait for a slot included, took at most one
      timeout. */
  ghost predicate OnTime(o: Options, deadline: int, trials: seq<Trial>) {
    && |trials| == o.Attempts()
    && forall k :: 2 <= k < o.Attempts() ==>
         trials[k].now <= trials[k - 1].now + WaitBefore(o, deadline, trials, k) + o.Timeout()
  }

  /** A wait that takes no more than its share leaves every later one at least as much. */
  lemma ShareKept(o: Options, deadline: int, now: int, later: int, attempt: nat, draw: real)
    requires attempt < o.Attempts()
    requires 0 < Share(o, deadline, now, attempt)
    requires var fit := Fitted(o, deadline, now, attempt, draw);
             later <= now + (if fit.GiveUp? then 0 else fit.delay) + o.Timeout()
    ensures Share(o, deadline, now, attempt) <= Share(o, deadline, later, attempt + 1)
  {
    var left, share := o.Attempts() - attempt + 1, Share(o, deadline, now, attempt);
    TruncatedAtMost(Slack(o, deadline, now, attempt), left);
    assert (left - 1) * o.Timeout() == left * o.Timeout() - o.Timeout();
    assert share * (left - 1) == share * left - share;
    TruncatedAtLeast(Slack(o, deadline, later, attempt + 1), left - 1, share);
  }

  lemma LeavesOneTimeout(o: Options, deadline: int, now: int, attempt: nat, draw: real)
    requires attempt <= o.Attempts() && 0 < Share(o, deadline, now, attempt)
    ensures Fitted(o, deadline, now, attempt, draw).Wait?
    ensures now + Fitted(o, deadline, now, attempt, draw).delay + o.Timeout() <= deadline
  {
    var left, share := o.Attempts() - attempt + 1, Share(o, deadline, now, attempt);
    TruncatedAtMost(Slack(o, deadline, now, attempt), left);
    MulOrder(1, left, share);
    MulOrder(1, left, o.Timeout());
  }

  lemma {:induction false} SharesGrow(o: Options, deadline: int, trials: seq<Trial>, j: nat, k: nat)
    requires OnTime(o, deadline, trials) && 2 <= j <= k <= o.Attempts()
    requires 0 < ShareBefore(o, deadline, trials, j)
    ensures ShareBefore(o, deadline, trials, j) <= ShareBefore(o, deadline, trials, k)
    decreases k
  {
    if j < k {
      SharesGrow(o, deadline, trials, j, k - 1);
      ShareKept(o, deadline, trials[k - 2].now, trials[k - 1].now, k - 1, trials[k - 2].draw);
    }
  }

  /** Attempt `k` is made, with at least one timeout left before the deadline. */
  ghost predicate StartsInTime(o: Options, deadline: int, trials: seq<Trial>, k: nat)
    requires 0 < k <= o.Attempts() == |trials|
  {
    && Fitted(o, deadline, trials[k - 1].now, k, trials[k - 1].draw).Wait?
    && trials[k - 1].now + WaitBefore(o, deadline, trials, k) + o.Timeout() <= deadline
  }

  lemma PositiveShareStarts(o: Options, deadline: int, trials: seq<Trial>, k: nat)
    requires OnTime(o, deadline, trials) && 2 <= k <= o.Attempts()
    requires 0 < ShareBefore(o, deadline, trials, 2)
    ensures StartsInTime(o, deadline, trials, k)
  {
    SharesGrow(o, deadline, trials, 2, k);
    LeavesOneTimeout(o, deadline, trials[k - 1].now, k, trials[k - 1].draw);
  }

  /** A positive first share means every remaining attempt is made: no later share is
      smaller, so no attempt is given up, and each starts with at least one timeout
      left before the deadline. */
  lemma TightBudget(o: Options, deadline: int, trials: seq<Trial>)
    requires OnTime(o, deadline, trials) && 2 <= o.Attempts()
    requires 0 < ShareBefore(o, deadline, trials, 2)
    ensures forall j, k :: 2 <= j <= k <= o.Attempts() ==>
              ShareBefore(o, deadline, trials, j) <= ShareBefore(o, deadline, trials, k)
    ensures forall k :: 2 <= k <= o.Attempts() ==> StartsInTime(o, deadline, trials, k)
  {
    forall k | 2 <= k <= o.Attempts() ensures StartsInTime(o, deadline, trials, k) {
      PositiveShareStarts(o, deadline, trials, k);
    }
    forall j, k | 2 <= j <= k <= o.Attempts()
      ensures ShareBefore(o, deadline, trials, j) <= ShareBefore(o, deadline, trials, k)
    {
      SharesGrow(o, deadline, trials, 2, j);
      SharesGrow(o, deadline, trials, j, k);
    }
  }

  /** The run never stands in the way of an attempt, and none of them settles the load. */
  ghost predicate NothingSettles(trials: seq<Trial>) {
    forall k :: 0 <= k < |trials| ==>
      && !trials[k].sleepEnded && !trials[k].ended && Retryable(Made(trials[k].live))
      && (trials[k].live.NoClient? ==> !trials[k].live.over)
  }

  lemma {:induction false} AllSpent(o: Options, deadline: int, trials: seq<Trial>, attempt: nat, spent: seq<Attempt>)
    requires 0 < attempt <= o.Attempts() + 1 && |trials| == o.Attempts() && |spent| == attempt - 1
    requires NothingSettles(trials)
    requires forall k :: 2 <= k <= o.Attempts() ==> StartsInTime(o, deadline, trials, k)
    ensures |History(o, deadline, trials, attempt, spent)| == o.Attempts()
    decreases |trials| + 1 - attempt
  {
    if attempt <= o.Attempts() {
      if 2 <= attempt { assert StartsInTime(o, deadline, trials, attempt); }
      AllSpent(o, deadline, trials, attempt + 1, spent + [Made(trials[attempt - 1].live)]);
    }
  }

  lemma GivesUpAtOnce(o: Options, deadline: int, trials: seq<Trial>)
    requires 2 <= o.Attempts() == |trials| && NothingSettles(trials)
    requires 0 < RetryDelay(trials[1].draw, o.Mean()) && ShareBefore(o, deadline, trials, 2) <= 0
    ensures |History(o, deadline, trials, 1, [])| == 1
  {
    var first := [] + [Made(trials[0].live)];
    assert Fitted(o, deadline, trials[1].now, 2, trials[1].draw) == GiveUp;
    assert GivesUp(o, deadline, trials[1], 2);
    assert History(o, deadline, trials, 2, first) == first;
  }

  /** When every draw asks for some wait, a load that nothing settles spends every
      attempt exactly if its first share is positive; otherwise it spends only one. */
  lemma TightBudgetExactly(o: Options, deadline: int, trials: seq<Trial>)
    requires OnTime(o, deadline, trials) && 2 <= o.Attempts() && NothingSettles(trials)
    requires forall k :: 0 <= k < |trials| ==> 0 < RetryDelay(trials[k].draw, o.Mean())
    ensures |History(o, deadline, trials, 1, [])| ==
              if 0 < ShareBefore(o, deadline, trials, 2) then o.Attempts() else 1
  {
    if 0 < ShareBefore(o, deadline, trials, 2) {
      TightBudget(o, deadline, trials);
      AllSpent(o, deadline, trials, 1, []);
    } else {
      GivesUpAtOnce(o, deadline, trials);
    }
  }
}
