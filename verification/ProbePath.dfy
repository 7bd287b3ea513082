/** The owner of a probe's tunnels: calls that replace the current one, threads that close
    the replaced ones, and calls that close the whole path, all racing.

    The locked scopes are the methods of a class, each proved equal to a function on its
    fields.  The protocol is those functions interleaved, for any number of Reopen and
    Close calls, with every call into a tunnel a step of its own. */
module ProbePath {
  import opened Common
  import C = PathContract

  // ----- The locked scopes -----

  /** The fields the lock guards.  A tunnel is named by a number, its client by its
      tunnel's, and an error by the tunnel whose close failed. */
  datatype Fields = Fields(tunnel: nat, client: nat, closed: bool, reopened: nat, retiring: nat, errs: seq<nat>)

  function Swapped(f: Fields, tunnel: nat, client: nat): Fields {
    if f.closed then f
    else f.(tunnel := tunnel, client := client, reopened := f.reopened + 1, retiring := f.retiring + 1)
  }

  class ProbePath {
    var tunnel: nat
    var client: nat
    var closed: bool
    var reopened: nat
    var retiring: nat
    var errs: seq<nat>

    function State(): Fields
      reads this
    {
      Fields(tunnel, client, closed, reopened, retiring, errs)
    }

    constructor (first: nat)
      ensures State() == Fields(first, first, false, 0, 0, [])
    {
      tunnel, client, closed, reopened, retiring, errs := first, first, false, 0, 0, [];
    }

    method Current() returns (current: nat, its: nat)
      ensures current == State().tunnel && its == State().client
    {
      current, its := tunnel, client;
    }

    method Closed() returns (yes: bool)
      ensures yes == State().closed
    {
      yes := closed;
    }

    /** Makes a new tunnel current, unless the path has been closed; the one it replaces
        is to be retired. */
    method Swap(newTunnel: nat, newClient: nat) returns (lost: bool, retired: nat)
      modifies this
      ensures State() == Swapped(old(State()), newTunnel, newClient)
      ensures lost == old(State()).closed && (!lost ==> retired == old(State()).tunnel)
      ensures lost ==> State() == old(State())
    {
      lost, retired := closed, tunnel;
      if closed {
        return;
      }
      tunnel, client := newTunnel, newClient;
      reopened := reopened + 1;
      retiring := retiring + 1;
    }

    method Record(err: nat)
      modifies this
      ensures State() == old(State()).(errs := old(State()).errs + [err])
    {
      errs := errs + [err];
    }

    method Retired()
      requires 0 < retiring
      modifies this
      ensures State() == old(State()).(retiring := old(State()).retiring - 1)
    {
      retiring := retiring - 1;
    }

    method BeginClose() returns (already: bool, current: nat)
      modifies this
      ensures State() == old(State()).(closed := true)
      ensures already == old(State()).closed && current == old(State()).tunnel
    {
      already, current := closed, tunnel;
      closed := true;
    }
  }

  // ----- The protocol -----

  /** Who is to close a tunnel: the path while it is current, one thread, or nobody once
      it has been closed. */
  datatype Holder = ByPath | ByThread(i: nat) | Nobody

  /** One opened tunnel: who holds it, how often it was closed, whether that failed, and
      which thread closed it. */
  datatype Tunnel = Tunnel(holder: Holder, closes: nat, failed: bool, closer: nat)

  datatype Outcome = Replaced(tunnel: nat) | OpenFailed | PathClosed | LostRace(tunnel: nat)

  /** Where a call of Reopen, a background retirement or a call of Close is. */
  datatype Thread =
    | ReopenStart
    | Opening
    | HasOpened(tunnel: nat)
    | LosingRace(tunnel: nat)
    | HasSwapped(retired: nat, tunnel: nat)
    | ReopenDone(outcome: Outcome)
    | Retiring(tunnel: nat)
    | RetireFailed(tunnel: nat)
    | RetireEnding
    | RetireDone
    | CloseStart
    | ClosingCurrent(tunnel: nat)
    | AwaitRetired(tunnel: nat, failed: bool)
    | ReadErrors(tunnel: nat, failed: bool)
    | CloseDone(first: bool, errs: seq<nat>)

  /** `history` is every tunnel ever current, in order; `lost` every tunnel lost. */
  datatype System = System(fields: Fields, tunnels: seq<Tunnel>, history: seq<nat>, lost: set<nat>,
                           threads: seq<Thread>)

  datatype Action = CallReopen | CallClose | LoseTunnel(tunnel: nat) | Step(i: nat, ok: bool)

  predicate CanStep(s: System, i: nat) {
    && i < |s.threads|
    && match s.threads[i]
       case HasOpened(t) => t < |s.tunnels| && s.fields.tunnel < |s.tunnels|
       case LosingRace(t) => t < |s.tunnels|
       case HasSwapped(t, _) => t < |s.tunnels|
       case Retiring(t) => t < |s.tunnels|
       case RetireEnding => 0 < s.fields.retiring
       case CloseStart => s.fields.tunnel < |s.tunnels|
       case ClosingCurrent(t) => t < |s.tunnels|
       case AwaitRetired(_, _) => s.fields.retiring == 0
       case ReopenDone(_) => false
       case RetireDone => false
       case CloseDone(_, _) => false
       case _ => true
  }

  function At(s: System, i: nat, thread: Thread): System
    requires i < |s.threads|
  {
    s.(threads := s.threads[i := thread])
  }

  /** Thread `i` closes a tunnel. */
  function Close(s: System, i: nat, t: nat, ok: bool): System
    requires t < |s.tunnels|
  {
    s.(tunnels := s.tunnels[t := Tunnel(Nobody, s.tunnels[t].closes + 1, !ok, i)])
  }

  function Hold(s: System, t: nat, holder: Holder): System
    requires t < |s.tunnels|
  {
    s.(tunnels := s.tunnels[t := s.tunnels[t].(holder := holder)])
  }

  function Stepped(s: System, i: nat, ok: bool): System
    requires CanStep(s, i)
  {
    match s.threads[i]
    case ReopenStart => At(s, i, if s.fields.closed then ReopenDone(PathClosed) else Opening)
    case Opening =>
      if ok then At(s, i, HasOpened(|s.tunnels|)).(tunnels := s.tunnels + [Tunnel(ByThread(i), 0, false, i)])
      else At(s, i, ReopenDone(OpenFailed))
    case HasOpened(t) =>
      if s.fields.closed then At(s, i, LosingRace(t))
      else
        At(Hold(Hold(s, s.fields.tunnel, ByThread(i)), t, ByPath), i, HasSwapped(s.fields.tunnel, t))
        .(fields := Swapped(s.fields, t, t), history := s.history + [t])
    case LosingRace(t) => At(Close(s, i, t, ok), i, ReopenDone(LostRace(t)))
    case HasSwapped(t, current) =>
      var s' := At(Hold(s, t, ByThread(|s.threads|)), i, ReopenDone(Replaced(current)));
      s'.(threads := s'.threads + [Retiring(t)])
    case Retiring(t) => At(Close(s, i, t, ok), i, if ok then RetireEnding else RetireFailed(t))
    case RetireFailed(t) => At(s, i, RetireEnding).(fields := s.fields.(errs := s.fields.errs + [t]))
    case RetireEnding => At(s, i, RetireDone).(fields := s.fields.(retiring := s.fields.retiring - 1))
    case CloseStart =>
      if s.fields.closed then At(s, i, CloseDone(false, []))
      else At(Hold(s, s.fields.tunnel, ByThread(i)), i, ClosingCurrent(s.fields.tunnel))
           .(fields := s.fields.(closed := true))
    case ClosingCurrent(t) => At(Close(s, i, t, ok), i, AwaitRetired(t, !ok))
    case AwaitRetired(t, failed) => At(s, i, ReadErrors(t, failed))
    case ReadErrors(t, failed) => At(s, i, CloseDone(true, (if failed then [t] else []) + s.fields.errs))
    case _ => s
  }

  predicate Enabled(s: System, a: Action) {
    match a
    case LoseTunnel(t) => t < |s.tunnels|
    case Step(i, _) => CanStep(s, i)
    case _ => true
  }

  function Apply(s: System, a: Action): System
    requires Enabled(s, a)
  {
    match a
    case CallReopen => s.(threads := s.threads + [ReopenStart])
    case CallClose => s.(threads := s.threads + [CloseStart])
    case LoseTunnel(t) => s.(lost := s.lost + {t})
    case Step(i, ok) => Stepped(s, i, ok)
  }

  /** The probe's first tunnel is open and current. */
  ghost predicate Initial(s: System) {
    && s.fields == Fields(0, 0, false, 0, 0, []) && s.history == [0]
    && s.tunnels == [Tunnel(ByPath, 0, false, 0)] && s.threads == [] && s.lost <= {0}
  }

  ghost predicate Runs(s: System, actions: seq<Action>, s': System)
    decreases |actions|
  {
    if actions == [] then s' == s
    else Enabled(s, actions[0]) && Runs(Apply(s, actions[0]), actions[1..], s')
  }

  ghost predicate Reachable(s: System) {
    exists s0, actions :: Initial(s0) && Runs(s0, actions, s)
  }

  // ----- What every step keeps -----

  predicate IsRetiring(t: Thread) {
    t.HasSwapped? || t.Retiring? || t.RetireFailed? || t.RetireEnding?
  }

  /** The tunnel a thread has yet to close. */
  function Carries(t: Thread): Option<nat> {
    match t
    case HasOpened(x) => Some(x)
    case LosingRace(x) => Some(x)
    case HasSwapped(x, _) => Some(x)
    case Retiring(x) => Some(x)
    case ClosingCurrent(x) => Some(x)
    case _ => None
  }

  /** Every tunnel ever current has been closed. */
  ghost predicate AllClosed(s: System) {
    forall t :: t in s.history ==> t < |s.tunnels| && s.tunnels[t].holder == Nobody
  }

  ghost predicate ThreadOk(s: System, i: nat)
    requires i < |s.threads|
  {
    var th := s.threads[i];
    && (Carries(th).Some? ==> Carries(th).value < |s.tunnels| && s.tunnels[Carries(th).value].holder == ByThread(i))
    && match th
       case HasOpened(t) => t !in s.history
       case LosingRace(t) => t !in s.history && s.fields.closed
       case HasSwapped(t, current) => t in s.history && t != s.fields.tunnel && current in s.history
       case Retiring(t) => t in s.history && t != s.fields.tunnel
       case RetireFailed(t) =>
         && t in s.history && t != s.fields.tunnel && t < |s.tunnels|
         && s.tunnels[t].holder == Nobody && s.tunnels[t].failed && s.tunnels[t].closer == i
       case ClosingCurrent(t) => t == s.fields.tunnel && s.fields.closed
       case AwaitRetired(t, failed) => ClosedCurrent(s, t, failed)
       case ReadErrors(t, failed) => ClosedCurrent(s, t, failed) && s.fields.retiring == 0
       case CloseDone(true, errs) =>
         && s.fields.closed && AllClosed(s)
         && (forall t :: t in errs <==> t in s.history && t < |s.tunnels| && s.tunnels[t].failed)
       case CloseDone(false, errs) => s.fields.closed && errs == []
       case ReopenDone(Replaced(t)) => t in s.history
       case ReopenDone(LostRace(t)) =>
         t !in s.history && t < |s.tunnels| && s.tunnels[t].holder == Nobody && s.fields.closed
       case _ => true
  }

  ghost predicate ClosedCurrent(s: System, t: nat, failed: bool) {
    && s.fields.closed && t == s.fields.tunnel && t < |s.tunnels|
    && s.tunnels[t].holder == Nobody && s.tunnels[t].failed == failed
  }

  ghost predicate TunnelOk(s: System, t: nat)
    requires t < |s.tunnels|
  {
    var x := s.tunnels[t];
    && x.closes == (if x.holder == Nobody then 1 else 0)
    && (x.failed ==> x.holder == Nobody)
    && (x.holder == ByPath ==> t == s.fields.tunnel && !s.fields.closed)
    && (x.holder.ByThread? ==> x.holder.i < |s.threads| && Carries(s.threads[x.holder.i]) == Some(t))
    && (x.failed && t in s.history && t != s.fields.tunnel ==>
          t in s.fields.errs || (x.closer < |s.threads| && s.threads[x.closer] == RetireFailed(t)))
  }

  ghost predicate CurrentOk(s: System) {
    && s.history != [] && s.fields.tunnel == s.history[|s.history| - 1] && s.fields.client == s.fields.tunnel
    && s.fields.reopened == |s.history| - 1
    && s.fields.tunnel < |s.tunnels|
    && (!s.fields.closed ==> s.tunnels[s.fields.tunnel].holder == ByPath)
    && (forall i, j :: 0 <= i < j < |s.history| ==> s.history[i] != s.history[j])
    && (forall t :: t in s.history ==> t < |s.tunnels|)
    && (forall t :: t in s.lost ==> t < |s.tunnels|)
  }

  ghost predicate ErrsOk(s: System) {
    forall t :: t in s.fields.errs ==> t in s.history && t != s.fields.tunnel && t < |s.tunnels| && s.tunnels[t].failed
  }

  ghost predicate Inv(s: System) {
    && CurrentOk(s) && ErrsOk(s)
    && s.fields.retiring == Count(s.threads, IsRetiring)
    && (forall t :: 0 <= t < |s.tunnels| ==> TunnelOk(s, t))
    && (forall i :: 0 <= i < |s.threads| ==> ThreadOk(s, i))
  }

  /** Nobody is to close the tunnel any more, or a thread other than `i` is. */
  predicate BeyondReach(holder: Holder, i: nat) {
    holder == Nobody || (holder.ByThread? && holder.i != i)
  }

  /** What a step of thread `i` leaves every other thread. */
  ghost predicate Undisturbed(s: System, s': System, i: nat) {
    && |s.tunnels| <= |s'.tunnels|
    && (forall t :: 0 <= t < |s.tunnels| && BeyondReach(s.tunnels[t].holder, i) ==> s'.tunnels[t] == s.tunnels[t])
    && (forall t :: t in s.history ==> t in s'.history)
    && (forall t :: t in s'.history && t !in s.history ==> t < |s.tunnels| && s.tunnels[t].holder == ByThread(i))
    && (s'.fields.tunnel != s.fields.tunnel ==>
          s'.fields.tunnel < |s.tunnels| && s.tunnels[s'.fields.tunnel].holder == ByThread(i))
    && (s.fields.closed ==>
          s'.fields.closed && s'.history == s.history && s'.fields.tunnel == s.fields.tunnel
          && (s.fields.retiring == 0 ==> s'.fields.retiring == 0))
  }

  lemma OthersOk(s: System, s': System, i: nat, j: nat)
    requires CurrentOk(s) && Undisturbed(s, s', i) && j != i
    requires j < |s.threads| <= |s'.threads| && s'.threads[j] == s.threads[j] && ThreadOk(s, j)
    ensures ThreadOk(s', j)
  {
  }

  lemma ThreadsOk(s: System, s': System, i: nat)
    requires CurrentOk(s) && Undisturbed(s, s', i)
    requires i < |s.threads| <= |s'.threads| && ThreadOk(s', i)
    requires forall j :: 0 <= j < |s.threads| && j != i ==> s'.threads[j] == s.threads[j]
    requires forall j :: 0 <= j < |s.threads| ==> ThreadOk(s, j)
    ensures forall j :: 0 <= j < |s.threads| ==> ThreadOk(s', j)
  {
    forall j | 0 <= j < |s.threads| && j != i ensures ThreadOk(s', j) {
      OthersOk(s, s', i, j);
    }
  }

  /** A tunnel that a step of thread `i` leaves alone. */
  lemma TunnelKept(s: System, s': System, i: nat, t: nat)
    requires t < |s.tunnels| <= |s'.tunnels| && s'.tunnels[t] == s.tunnels[t] && TunnelOk(s, t)
    requires i < |s.threads| <= |s'.threads|
    requires forall j :: 0 <= j < |s.threads| && j != i ==> s'.threads[j] == s.threads[j]
    requires s.tunnels[t].holder == ByPath ==> s'.fields.tunnel == t && s'.fields.closed == s.fields.closed
    requires s.tunnels[t].holder == ByThread(i) ==> Carries(s'.threads[i]) == Carries(s.threads[i])
    requires s.tunnels[t].failed ==>
               (t in s'.history ==> t in s.history) && (t == s.fields.tunnel ==> t == s'.fields.tunnel)
    requires forall x :: x in s.fields.errs ==> x in s'.fields.errs
    requires s.threads[i] == RetireFailed(t) ==> t in s'.fields.errs
    ensures TunnelOk(s', t)
  {
  }

  /** The thread that a step starts, if there is one. */
  function Spawned(t: Thread): seq<Thread> {
    if t.HasSwapped? then [Retiring(t.retired)] else []
  }

  lemma OneThreadMoves(s: System, i: nat, ok: bool)
    requires CanStep(s, i)
    ensures i < |Stepped(s, i, ok).threads|
    ensures Stepped(s, i, ok).threads == s.threads[i := Stepped(s, i, ok).threads[i]] + Spawned(s.threads[i])
  {
  }

  lemma CountStep(s: System, i: nat, thread: Thread)
    requires i < |s.threads|
    ensures Count(s.threads[i := thread], IsRetiring) + (if IsRetiring(s.threads[i]) then 1 else 0)
            == Count(s.threads, IsRetiring) + if IsRetiring(thread) then 1 else 0
  {
    CountUpdate(s.threads, i, thread, IsRetiring);
  }

  lemma QuietStepKeepsInv(s: System, i: nat, ok: bool)
    requires Inv(s) && CanStep(s, i)
    requires s.threads[i].ReopenStart? || (s.threads[i].Opening? && !ok)
             || (s.threads[i].HasOpened? && s.fields.closed) || (s.threads[i].CloseStart? && s.fields.closed)
    ensures Inv(Stepped(s, i, ok))
  {
    var s' := Stepped(s, i, ok);
    assert ThreadOk(s, i);
    CountStep(s, i, s'.threads[i]);
    forall t | 0 <= t < |s.tunnels| ensures TunnelOk(s', t) {
      TunnelKept(s, s', i, t);
    }
    ThreadsOk(s, s', i);
  }

  lemma RetirementEndKeepsInv(s: System, i: nat, ok: bool)
    requires Inv(s) && CanStep(s, i) && (s.threads[i].RetireFailed? || s.threads[i].RetireEnding?)
    ensures Inv(Stepped(s, i, ok))
  {
    var s' := Stepped(s, i, ok);
    assert ThreadOk(s, i);
    CountStep(s, i, s'.threads[i]);
    forall t | 0 <= t < |s.tunnels| ensures TunnelOk(s', t) {
      TunnelKept(s, s', i, t);
    }
    ThreadsOk(s, s', i);
  }

  lemma OpenKeepsInv(s: System, i: nat)
    requires Inv(s) && CanStep(s, i) && s.threads[i].Opening?
    ensures Inv(Stepped(s, i, true))
  {
    var s' := Stepped(s, i, true);
    CountStep(s, i, s'.threads[i]);
    forall t | 0 <= t < |s'.tunnels| ensures TunnelOk(s', t) {
      if t < |s.tunnels| {
        assert TunnelOk(s, t);
        TunnelKept(s, s', i, t);
      }
    }
    ThreadsOk(s, s', i);
  }

  lemma SwapKeepsInv(s: System, i: nat, ok: bool)
    requires Inv(s) && CanStep(s, i) && s.threads[i].HasOpened? && !s.fields.closed
    ensures Inv(Stepped(s, i, ok))
  {
    var s' := Stepped(s, i, ok);
    assert ThreadOk(s, i);
    CountStep(s, i, s'.threads[i]);
    forall t | 0 <= t < |s'.tunnels| ensures TunnelOk(s', t) {
      assert TunnelOk(s, t);
      if t != s.fields.tunnel && t != s'.fields.tunnel {
        TunnelKept(s, s', i, t);
      }
    }
    ThreadsOk(s, s', i);
  }

  lemma CloseKeepsTunnels(s: System, i: nat, ok: bool)
    requires Inv(s) && CanStep(s, i)
    requires s.threads[i].LosingRace? || s.threads[i].Retiring? || s.threads[i].ClosingCurrent?
    ensures forall t :: 0 <= t < |s.tunnels| ==> TunnelOk(Stepped(s, i, ok), t)
    ensures CurrentOk(Stepped(s, i, ok)) && ErrsOk(Stepped(s, i, ok))
  {
    var s' := Stepped(s, i, ok);
    assert ThreadOk(s, i);
    var closed := s.threads[i].tunnel;
    assert TunnelOk(s, closed);
    forall t | 0 <= t < |s'.tunnels| ensures TunnelOk(s', t) {
      if t != closed {
        assert TunnelOk(s, t);
        TunnelKept(s, s', i, t);
      }
    }
  }

  lemma CloseKeepsInv(s: System, i: nat, ok: bool)
    requires Inv(s) && CanStep(s, i)
    requires s.threads[i].LosingRace? || s.threads[i].Retiring? || s.threads[i].ClosingCurrent?
    ensures Inv(Stepped(s, i, ok))
  {
    var s' := Stepped(s, i, ok);
    assert ThreadOk(s, i);
    CountStep(s, i, s'.threads[i]);
    CloseKeepsTunnels(s, i, ok);
    ThreadsOk(s, s', i);
  }

  lemma RetireKeepsInv(s: System, i: nat, ok: bool)
    requires Inv(s) && CanStep(s, i) && s.threads[i].HasSwapped?
    ensures Inv(Stepped(s, i, ok))
  {
    var s' := Stepped(s, i, ok);
    var retired := s.threads[i].retired;
    assert ThreadOk(s, i);
    var done := ReopenDone(Replaced(s.threads[i].tunnel));
    CountStep(s, i, done);
    CountAppend(s.threads[i := done], Retiring(retired), IsRetiring);
    RetireKeepsTunnels(s, i, ok);
    ThreadsOk(s, s', i);
    assert ThreadOk(s', |s.threads|);
  }

  lemma RetireKeepsTunnels(s: System, i: nat, ok: bool)
    requires Inv(s) && CanStep(s, i) && s.threads[i].HasSwapped?
    ensures forall t :: 0 <= t < |s.tunnels| ==> TunnelOk(Stepped(s, i, ok), t)
  {
    var s', retired := Stepped(s, i, ok), s.threads[i].retired;
    assert ThreadOk(s, i);
    forall t | 0 <= t < |s.tunnels| ensures TunnelOk(s', t) {
      assert TunnelOk(s, t);
      if t != retired {
        TunnelKept(s, s', i, t);
      }
    }
  }

  lemma BeginCloseKeepsInv(s: System, i: nat, ok: bool)
    requires Inv(s) && CanStep(s, i) && s.threads[i].CloseStart? && !s.fields.closed
    ensures Inv(Stepped(s, i, ok))
  {
    var s' := Stepped(s, i, ok);
    assert ThreadOk(s, i);
    CountStep(s, i, s'.threads[i]);
    forall t | 0 <= t < |s'.tunnels| ensures TunnelOk(s', t) {
      assert TunnelOk(s, t);
      if t != s.fields.tunnel {
        TunnelKept(s, s', i, t);
      }
    }
    ThreadsOk(s, s', i);
  }

  /** Once closed, with nothing retiring, every tunnel ever current has been closed and
      every failure of those closes is on record. */
  lemma JoinedIsComplete(s: System, i: nat)
    requires Inv(s) && i < |s.threads| && s.threads[i].ReadErrors?
    ensures AllClosed(s)
    ensures forall t :: t in s.history && t != s.fields.tunnel && s.tunnels[t].failed ==> t in s.fields.errs
  {
    assert ThreadOk(s, i);
    CountPositive(s.threads, IsRetiring);
    forall t | t in s.history
      ensures s.tunnels[t].holder == Nobody
      ensures t != s.fields.tunnel && s.tunnels[t].failed ==> t in s.fields.errs
    {
      assert TunnelOk(s, t);
      assert s.tunnels[t].holder.ByThread? ==> ThreadOk(s, s.tunnels[t].holder.i);
    }
  }

  lemma JoinKeepsInv(s: System, i: nat, ok: bool)
    requires Inv(s) && CanStep(s, i) && (s.threads[i].AwaitRetired? || s.threads[i].ReadErrors?)
    ensures Inv(Stepped(s, i, ok))
  {
    var s' := Stepped(s, i, ok);
    assert ThreadOk(s, i);
    CountStep(s, i, s'.threads[i]);
    if s.threads[i].ReadErrors? {
      JoinedIsComplete(s, i);
    }
    forall t | 0 <= t < |s.tunnels| ensures TunnelOk(s', t) {
      TunnelKept(s, s', i, t);
    }
    ThreadsOk(s, s', i);
  }

  lemma LossKeepsInv(s: System, t: nat)
    requires Inv(s) && t < |s.tunnels|
    ensures Inv(Apply(s, LoseTunnel(t)))
  {
    var s' := Apply(s, LoseTunnel(t));
    forall u | 0 <= u < |s.tunnels| ensures TunnelOk(s', u) {
      assert TunnelOk(s, u);
    }
    forall j | 0 <= j < |s.threads| ensures ThreadOk(s', j) {
      assert ThreadOk(s, j);
    }
  }

  lemma TunnelBesideCall(s: System, thread: Thread, t: nat)
    requires t < |s.tunnels| && TunnelOk(s, t)
    ensures TunnelOk(s.(threads := s.threads + [thread]), t)
  {
  }

  lemma ThreadBesideCall(s: System, thread: Thread, j: nat)
    requires j < |s.threads| && ThreadOk(s, j)
    ensures ThreadOk(s.(threads := s.threads + [thread]), j)
  {
  }

  /** A call starts. */
  lemma CallKeepsInv(s: System, thread: Thread)
    requires Inv(s) && (thread.ReopenStart? || thread.CloseStart?)
    ensures Inv(s.(threads := s.threads + [thread]))
  {
    var s' := s.(threads := s.threads + [thread]);
    CountAppend(s.threads, thread, IsRetiring);
    forall t | 0 <= t < |s.tunnels| ensures TunnelOk(s', t) {
      TunnelBesideCall(s, thread, t);
    }
    forall j | 0 <= j < |s.threads| ensures ThreadOk(s', j) {
      ThreadBesideCall(s, thread, j);
    }
  }

  lemma StepKeepsInv(s: System, a: Action)
    requires Inv(s) && Enabled(s, a)
    ensures Inv(Apply(s, a))
  {
    match a
    case Step(i, ok) =>
      match s.threads[i] {
        case Opening => if ok { OpenKeepsInv(s, i); } else { QuietStepKeepsInv(s, i, ok); }
        case HasOpened(_) => if s.fields.closed { QuietStepKeepsInv(s, i, ok); } else { SwapKeepsInv(s, i, ok); }
        case LosingRace(_) => CloseKeepsInv(s, i, ok);
        case Retiring(_) => CloseKeepsInv(s, i, ok);
        case ClosingCurrent(_) => CloseKeepsInv(s, i, ok);
        case HasSwapped(_, _) => RetireKeepsInv(s, i, ok);
        case CloseStart => if s.fields.closed { QuietStepKeepsInv(s, i, ok); } else { BeginCloseKeepsInv(s, i, ok); }
        case AwaitRetired(_, _) => JoinKeepsInv(s, i, ok);
        case ReadErrors(_, _) => JoinKeepsInv(s, i, ok);
        case RetireFailed(_) => RetirementEndKeepsInv(s, i, ok);
        case RetireEnding => RetirementEndKeepsInv(s, i, ok);
        case _ => QuietStepKeepsInv(s, i, ok);
      }
    case CallReopen => CallKeepsInv(s, ReopenStart);
    case CallClose => CallKeepsInv(s, CloseStart);
    case LoseTunnel(t) => LossKeepsInv(s, t);
  }

  lemma {:induction false} RunKeepsInv(s: System, actions: seq<Action>, s': System)
    requires Inv(s) && Runs(s, actions, s')
    ensures Inv(s')
    decreases |actions|
  {
    if actions != [] {
      StepKeepsInv(s, actions[0]);
      RunKeepsInv(Apply(s, actions[0]), actions[1..], s');
    }
  }

  lemma ReachableInv(s: System)
    requires Reachable(s)
    ensures Inv(s)
  {
    var s0, actions :| Initial(s0) && Runs(s0, actions, s);
    assert TunnelOk(s0, 0);
    RunKeepsInv(s0, actions, s);
  }

  // ----- The contract a run relies on -----

  /** The path as its run sees it: the generation is the number of swaps. */
  ghost function Seen(s: System): C.Path {
    C.Path(s.fields.reopened, LostGenerations(s.history, s.lost))
  }

  ghost function LostGenerations(history: seq<nat>, lost: set<nat>): (gs: set<nat>)
    ensures forall g: nat :: g in gs <==> g < |history| && history[g] in lost
  {
    set g: nat | g < |history| && history[g] in lost
  }

  lemma LossSeen(s: System, t: nat)
    requires Reachable(s) && t < |s.tunnels|
    ensures C.Next(Seen(s), Seen(Apply(s, LoseTunnel(t))))
  {
    ReachableInv(s);
    var s' := Apply(s, LoseTunnel(t));
    if t in s.history {
      var g: nat :| g < |s.history| && s.history[g] == t;
      assert Seen(s') == C.Lose(Seen(s), g);
    } else {
      assert Seen(s') == Seen(s);
    }
  }

  lemma SwapSeen(s: System, i: nat, ok: bool)
    requires Reachable(s) && CanStep(s, i) && s.threads[i].HasOpened? && !s.fields.closed
    ensures var s' := Stepped(s, i, ok);
            && Seen(s') == C.Advance(Seen(s), s.threads[i].tunnel in s.lost)
            && s'.fields.client == s'.fields.tunnel == s.threads[i].tunnel
  {
    ReachableInv(s);
    var s' := Stepped(s, i, ok);
    var n, t := |s.history|, s.threads[i].tunnel;
    assert s'.history[n] == t && forall g :: 0 <= g < n ==> s'.history[g] == s.history[g];
    assert Seen(s').lost == if t in s.lost then Seen(s).lost + {n} else Seen(s).lost;
  }

  /** The probe's path keeps the contract its run relies on: in every interleaving each
      step is nothing to the run, the loss of a tunnel, or the one swap of a Reopen that
      succeeds, which advances the generation by exactly one; `reopened` counts them. */
  lemma KeepsContract(s: System, a: Action)
    requires Reachable(s) && Enabled(s, a)
    ensures C.Next(Seen(s), Seen(Apply(s, a)))
    ensures C.Valid(Seen(s)) && Seen(s).generation == |s.history| - 1
    ensures Seen(Apply(s, a)).generation == Seen(s).generation + 1 <==>
              a.Step? && s.threads[a.i].HasOpened? && Apply(s, a).threads[a.i].HasSwapped?
    ensures a.Step? && !(s.threads[a.i].HasOpened? && Apply(s, a).threads[a.i].HasSwapped?) ==>
              Seen(Apply(s, a)) == Seen(s)
  {
    ReachableInv(s);
    match a
    case LoseTunnel(t) => LossSeen(s, t);
    case Step(i, ok) =>
      if s.threads[i].HasOpened? && !s.fields.closed {
        SwapSeen(s, i, ok);
      } else {
        assert Seen(Apply(s, a)) == Seen(s);
      }
    case _ => assert Seen(Apply(s, a)) == Seen(s);
  }

  /** A call of Reopen that has made, or is making, its tunnel current. */
  predicate Won(t: Thread) {
    t.HasSwapped? || (t.ReopenDone? && t.outcome.Replaced?)
  }
}
