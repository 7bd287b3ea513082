/** The owner of one request's tunnel dials: it admits a dial only while the request is
    open, and its close waits for every dial it admitted.

    The locked scopes are methods of a class, each proved equal to a function on its
    fields; the protocol interleaves them for any number of dials, however late. */
module DialOwner {
  import opened Common

  // ----- The locked scopes -----

  /** The fields the lock guards and the wait group: `dials` is how many were admitted
      and have not ended. */
  datatype Fields = Fields(closed: bool, dials: nat)

  function AdmittedTo(f: Fields, over: bool): Fields {
    if f.closed || over then f else f.(dials := f.dials + 1)
  }

  class RequestOwner {
    var closed: bool
    var dials: nat

    function State(): Fields reads this {
      Fields(closed, dials)
    }

    constructor ()
      ensures State() == Fields(false, 0)
    {
      closed, dials := false, 0;
    }

    /** Admits a dial, unless the request is closed or its context `over`. */
    method Admit(over: bool) returns (admitted: bool)
      modifies this
      ensures State() == AdmittedTo(old(State()), over)
      ensures admitted <==> !old(closed) && !over
    {
      if closed || over {
        return false;
      }
      dials := dials + 1;
      return true;
    }

    method Ended()
      requires 0 < dials
      modifies this
      ensures State() == old(State()).(dials := old(dials) - 1)
    {
      dials := dials - 1;
    }

    method MarkClosed()
      modifies this
      ensures State() == old(State()).(closed := true)
    {
      closed := true;
    }
  }

  // ----- The protocol -----

  /** Where a dial is: `over` says its own context has ended. */
  datatype Dial = Asking | Admitted | Running(over: bool) | Finished | Refused

  datatype Closer = Open | Marked | Cancelled | Joined

  /** `over` says the owner's context has ended. */
  datatype System = System(fields: Fields, over: bool, dials: seq<Dial>, closer: Closer)

  datatype Action = Ask | Step(i: nat) | Notify(i: nat) | Expire | Close

  predicate Enabled(s: System, a: Action) {
    match a
    case Ask => true
    case Step(i) =>
      && i < |s.dials|
      && (s.dials[i].Asking? || s.dials[i].Admitted? || (s.dials[i].Running? && 0 < s.fields.dials))
    case Notify(i) => i < |s.dials| && s.dials[i] == Running(false) && s.over
    case Expire => true
    case Close => !s.closer.Joined? && (s.closer.Cancelled? ==> s.fields.dials == 0)
  }

  function Stepped(s: System, i: nat): System
    requires Enabled(s, Step(i))
  {
    match s.dials[i]
    case Asking =>
      s.(fields := AdmittedTo(s.fields, s.over),
         dials := s.dials[i := if s.fields.closed || s.over then Refused else Admitted])
    case Admitted => s.(dials := s.dials[i := Running(s.over)])
    case Running(_) => s.(fields := s.fields.(dials := s.fields.dials - 1), dials := s.dials[i := Finished])
    case _ => s
  }

  function Apply(s: System, a: Action): System
    requires Enabled(s, a)
  {
    match a
    case Ask => s.(dials := s.dials + [Asking])
    case Step(i) => Stepped(s, i)
    case Notify(i) => s.(dials := s.dials[i := Running(true)])
    case Expire => s.(over := true)
    case Close =>
      match s.closer {
        case Open => s.(closer := Marked, fields := s.fields.(closed := true))
        case Marked => s.(closer := Cancelled, over := true)
        case _ => s.(closer := Joined)
      }
  }

  ghost predicate Initial(s: System) {
    s.fields == Fields(false, 0) && s.dials == [] && s.closer == Open
  }

  ghost predicate Runs(s: System, actions: seq<Action>, s': System)
    decreases |actions|
  {
    if actions == [] then s' == s
    else Enabled(s, actions[0]) && Runs(Apply(s, actions[0]), actions[1..], s')
  }

  ghost predicate Reachable(s: System) {
    exists s0, actions :: Initial(s0) && Runs(s0, actions, s)
  }

  // ----- What every step keeps -----

  predicate Live(d: Dial) {
    d.Admitted? || d.Running?
  }

  predicate NotYetRunning(d: Dial) {
    d.Admitted?
  }

  /** The wait group counts the dials admitted and not ended; close goes ahead in order,
      and has waited for them all when it returns; and no dial is cut short before the
      owner's context ends. */
  ghost predicate Inv(s: System) {
    && s.fields.dials == Count(s.dials, Live)
    && s.fields.closed == !s.closer.Open?
    && (s.closer.Cancelled? || s.closer.Joined? ==> s.over)
    && (s.closer.Joined? ==> s.fields.dials == 0)
    && (forall i :: 0 <= i < |s.dials| && s.dials[i] == Running(true) ==> s.over)
  }

  lemma StepKeepsInv(s: System, a: Action)
    requires Inv(s) && Enabled(s, a)
    ensures Inv(Apply(s, a))
  {
    match a
    case Ask => CountAppend(s.dials, Asking, Live);
    case Step(i) =>
      if s.closer.Joined? {
        CountPositive(s.dials, Live);
      }
      CountUpdate(s.dials, i, Stepped(s, i).dials[i], Live);
    case Notify(i) => CountUpdate(s.dials, i, Running(true), Live);
    case Expire =>
    case Close =>
  }

  lemma {:induction false} RunKeepsInv(s: System, actions: seq<Action>, s': System)
    requires Inv(s) && Runs(s, actions, s')
    ensures Inv(s')
    decreases |actions|
  {
    if actions != [] {
      StepKeepsInv(s, actions[0]);
      RunKeepsInv(Apply(s, actions[0]), actions[1..], s');
    }
  }

  lemma ReachableInv(s: System)
    requires Reachable(s)
    ensures Inv(s)
  {
    var s0, actions :| Initial(s0) && Runs(s0, actions, s);
    RunKeepsInv(s0, actions, s);
  }

  // ----- What it promises -----

  /** The dials that are or were admitted in `s'` already were in `s`. */
  ghost predicate NoneAdmitted(s: System, s': System) {
    && |s.dials| <= |s'.dials|
    && forall i :: 0 <= i < |s'.dials| && (Live(s'.dials[i]) || s'.dials[i].Finished?) ==>
         i < |s.dials| && (Live(s.dials[i]) || s.dials[i].Finished?) && (s.dials[i].Finished? ==> s'.dials[i].Finished?)
  }

  lemma {:induction false} ClosedAdmitsNone(s: System, actions: seq<Action>, s': System)
    requires s.fields.closed && Runs(s, actions, s')
    ensures NoneAdmitted(s, s') && s'.fields.closed
    decreases |actions|
  {
    if actions != [] {
      ClosedAdmitsNone(Apply(s, actions[0]), actions[1..], s');
    }
  }

  /** Once close has returned no dial it admitted is running, and however many come late
      none is ever admitted. */
  lemma CloseJoins(s: System, actions: seq<Action>, s': System)
    requires Reachable(s) && s.closer.Joined? && Runs(s, actions, s')
    ensures forall i :: 0 <= i < |s'.dials| ==> !Live(s'.dials[i])
    ensures NoneAdmitted(s, s')
  {
    ReachableInv(s);
    ClosedAdmitsNone(s, actions, s');
    CountPositive(s.dials, Live);
    forall i | 0 <= i < |s'.dials| ensures !Live(s'.dials[i]) {
      assert i < |s.dials| ==> !Live(s.dials[i]);
    }
  }

  /** A dial is always let ask; it is admitted, and counted, exactly if the request is not
      closed and the owner's context not over when it does, and refused otherwise; admitted it
      runs, its context over exactly if the owner's is, and ends when it will. */
  lemma DialGoesThrough(s: System, i: nat)
    requires Reachable(s)
    ensures var asked := Apply(s, Ask);
            asked == s.(dials := s.dials + [Asking])
    ensures Enabled(s, Expire) && Apply(s, Expire).over && Apply(s, Expire).dials == s.dials
    ensures i < |s.dials| && s.dials[i].Asking? ==>
              && Enabled(s, Step(i))
              && (Stepped(s, i).dials[i] == Admitted <==> !s.fields.closed && !s.over)
              && (Stepped(s, i).dials[i] == Refused <==> s.fields.closed || s.over)
              && (Stepped(s, i).fields.dials == s.fields.dials + 1 <==> !s.fields.closed && !s.over)
    ensures i < |s.dials| && s.dials[i].Admitted? ==>
              Enabled(s, Step(i)) && Stepped(s, i).dials[i] == Running(s.over) && Stepped(s, i).fields == s.fields
    ensures i < |s.dials| && s.dials[i].Running? ==>
              Enabled(s, Step(i)) && Stepped(s, i).dials[i] == Finished && Stepped(s, i).fields.dials < s.fields.dials
  {
    ReachableInv(s);
    CountPositive(s.dials, Live);
  }

  /** Close marks the request closed, then ends the owner's context, and then returns, once no
      dial it has to wait for is left. */
  lemma CloseGoesThrough(s: System)
    requires Reachable(s)
    ensures s.closer.Open? ==>
              Enabled(s, Close) && Apply(s, Close).fields.closed && Apply(s, Close).closer.Marked?
              && Apply(s, Close).dials == s.dials
    ensures s.closer.Marked? ==> Enabled(s, Close) && Apply(s, Close) == s.(closer := Cancelled, over := true)
    ensures s.closer.Cancelled? ==> (Enabled(s, Close) <==> forall i :: 0 <= i < |s.dials| ==> !Live(s.dials[i]))
    ensures s.closer.Cancelled? && Enabled(s, Close) ==> Apply(s, Close) == s.(closer := Joined)
  {
    ReachableInv(s);
    CountPositive(s.dials, Live);
  }

  /** The wait group never goes below zero: a dial that ends was counted. */
  lemma WaitGroupBalanced(s: System, i: nat)
    requires Reachable(s) && i < |s.dials| && s.dials[i].Running?
    ensures Enabled(s, Step(i))
  {
    ReachableInv(s);
    CountPositive(s.dials, Live);
  }

  /** What is left to do before close can return. */
  function Work(s: System): nat {
    Count(s.dials, Live) + Count(s.dials, NotYetRunning)
    + match s.closer { case Open => 3 case Marked => 2 case Cancelled => 1 case Joined => 0 }
  }

  /** While close is under way it never has to wait for nothing: it can go on itself, or
      a dial it waits for can; whatever else happens adds no work, and each of these
      steps takes some away. */
  lemma CloseComesCloser(s: System)
    requires Reachable(s) && s.fields.closed && !s.closer.Joined?
    ensures Enabled(s, Close) || exists i :: 0 <= i < |s.dials| && Live(s.dials[i]) && Enabled(s, Step(i))
    ensures Enabled(s, Close) ==> Work(Apply(s, Close)) < Work(s)
    ensures forall a :: Enabled(s, a) ==> Work(Apply(s, a)) <= Work(s)
    ensures forall i :: 0 <= i < |s.dials| && Live(s.dials[i]) && Enabled(s, Step(i)) ==>
              Work(Apply(s, Step(i))) < Work(s)
  {
    ReachableInv(s);
    CountPositive(s.dials, Live);
    if s.closer.Cancelled? && s.fields.dials != 0 {
      var i :| 0 <= i < |s.dials| && Live(s.dials[i]);
      assert Enabled(s, Step(i));
    }
    forall a | Enabled(s, a)
      ensures Work(Apply(s, a)) <= Work(s) && (a.Step? && Live(s.dials[a.i]) ==> Work(Apply(s, a)) < Work(s))
    {
      WorkAfter(s, a);
    }
  }

  lemma WorkAfter(s: System, a: Action)
    requires s.fields.closed && Enabled(s, a)
    ensures Work(Apply(s, a)) <= Work(s)
    ensures a.Step? && Live(s.dials[a.i]) ==> Work(Apply(s, a)) < Work(s)
  {
    match a
    case Ask =>
      CountAppend(s.dials, Asking, Live);
      CountAppend(s.dials, Asking, NotYetRunning);
    case Step(i) =>
      CountUpdate(s.dials, i, Stepped(s, i).dials[i], Live);
      CountUpdate(s.dials, i, Stepped(s, i).dials[i], NotYetRunning);
    case Notify(i) =>
      CountUpdate(s.dials, i, Running(true), Live);
      CountUpdate(s.dials, i, Running(true), NotYetRunning);
    case Expire =>
    case Close =>
  }

  /** Close cuts short every dial still running: its context has ended, or the owner's
      end is on its way to it; and never before the owner's context ends. */
  lemma CloseReachesEveryDial(s: System, i: nat)
    requires Reachable(s) && i < |s.dials| && s.dials[i].Running?
    ensures s.closer.Cancelled? ==> s.dials[i].over || Enabled(s, Notify(i))
    ensures Enabled(s, Notify(i)) ==> Apply(s, Notify(i)).dials[i] == Running(true)
    ensures s.dials[i].over ==> s.over
  {
    ReachableInv(s);
  }
}
