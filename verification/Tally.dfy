/** Scoring a run: its loads split into canaries, loads not measured, and loads scored,
    counted in all and by class; and what its warm-ups saw. */
module Tally {
  import opened Common
  import opened Destinations
  import opened RetryChain
  import opened RunPlan

  datatype ClassSummary = ClassSummary(ok: nat, total: nat)

  datatype Result = Result(checks: seq<CheckResult>, total: nat, okCount: nat, notMeasured: nat,
                           byClass: map<string, ClassSummary>, tlsFailure: bool)

  predicate Scored(r: CheckResult) {
    !r.canary && !r.notMeasured
  }

  function IsScored(): CheckResult -> bool { (r: CheckResult) => Scored(r) }

  function IsPassed(): CheckResult -> bool { (r: CheckResult) => Scored(r) && r.ok }

  function IsFailed(): CheckResult -> bool { (r: CheckResult) => !r.ok && !r.notMeasured && !r.canary }

  function IsNotMeasured(): CheckResult -> bool { (r: CheckResult) => r.notMeasured && !r.canary }

  function IsCanary(): CheckResult -> bool { (r: CheckResult) => r.canary }

  function IsCanaryPassed(): CheckResult -> bool { (r: CheckResult) => r.canary && r.ok }

  function IsCanaryFailed(): CheckResult -> bool { (r: CheckResult) => r.canary && !r.ok && !r.notMeasured }

  function IsCanaryNotMeasured(): CheckResult -> bool { (r: CheckResult) => r.canary && r.notMeasured }

  function ScoredOf(c: string): CheckResult -> bool { (r: CheckResult) => Scored(r) && r.class_ == c }

  function PassedOf(c: string): CheckResult -> bool { (r: CheckResult) => Scored(r) && r.ok && r.class_ == c }

  // ----- The tally -----

  function MarkedOne(r: CheckResult, d: Destination, place: Place): CheckResult {
    r.(canary := d.canary && IncompatibleWith(d, place))
  }

  /** The checks, each marked a canary or not by the destination it loaded. */
  function Marked(checks: seq<CheckResult>, dests: seq<Destination>, place: Place): (r: seq<CheckResult>)
    requires |checks| == |dests|
    ensures |r| == |checks|
  {
    seq(|checks|, i requires 0 <= i < |checks| => MarkedOne(checks[i], dests[i], place))
  }

  function SummaryAt(m: map<string, ClassSummary>, c: string): ClassSummary {
    if c in m then m[c] else ClassSummary(0, 0)
  }

  /** A class's entry counts its scored loads and those that passed, and there is an
      entry exactly if there is a load to count. */
  ghost predicate EntryFor(m: map<string, ClassSummary>, s: seq<CheckResult>, c: string) {
    && SummaryAt(m, c) == ClassSummary(Count(s, PassedOf(c)), Count(s, ScoredOf(c)))
    && (c in m <==> 0 < Count(s, ScoredOf(c)))
  }

  ghost predicate Counted(m: map<string, ClassSummary>, s: seq<CheckResult>) {
    forall c :: EntryFor(m, s, c)
  }

  lemma EntryAfter(m: map<string, ClassSummary>, s: seq<CheckResult>, r: CheckResult, c: string)
    requires EntryFor(m, s, c) && EntryFor(m, s, r.class_)
    ensures var e := SummaryAt(m, r.class_);
            var next := if !Scored(r) then m
                        else m[r.class_ := ClassSummary(e.ok + (if r.ok then 1 else 0), e.total + 1)];
            EntryFor(next, s + [r], c)
  {
    CountAppend(s, r, PassedOf(c));
    CountAppend(s, r, ScoredOf(c));
  }

  lemma OneMoreCounted(m: map<string, ClassSummary>, s: seq<CheckResult>, r: CheckResult)
    requires Counted(m, s)
    ensures var e := SummaryAt(m, r.class_);
            var next := if !Scored(r) then m
                        else m[r.class_ := ClassSummary(e.ok + (if r.ok then 1 else 0), e.total + 1)];
            Counted(next, s + [r])
  {
    var e := SummaryAt(m, r.class_);
    var next := if Scored(r) then m[r.class_ := ClassSummary(e.ok + (if r.ok then 1 else 0), e.total + 1)] else m;
    forall c ensures EntryFor(next, s + [r], c) {
      assert EntryFor(m, s, c) && EntryFor(m, s, r.class_);
      EntryAfter(m, s, r, c);
    }
  }

  ghost predicate AnyTls(s: seq<CheckResult>) {
    exists i :: 0 <= i < |s| && s[i].tlsFailure
  }

  lemma OneMoreTls(s: seq<CheckResult>, r: CheckResult)
    ensures AnyTls(s + [r]) <==> AnyTls(s) || r.tlsFailure
  {
    if AnyTls(s) {
      var i :| 0 <= i < |s| && s[i].tlsFailure;
      assert (s + [r])[i].tlsFailure;
    }
    assert (s + [r])[|s|] == r;
  }

  /** A result that says of its checks what there is to say, `echoTls` besides. */
  ghost predicate Tallies(res: Result, echoTls: bool) {
    && res.total == Count(res.checks, IsScored())
    && res.okCount == Count(res.checks, IsPassed())
    && res.notMeasured == Count(res.checks, IsNotMeasured())
    && Counted(res.byClass, res.checks)
    && (res.tlsFailure <==> echoTls || AnyTls(res.checks))
  }

  /** `next` is `res` with one more check counted: in no tally if it is a canary, as not
      measured if it was not, and in its class and in all otherwise. */
  ghost predicate Counts(res: Result, c: CheckResult, next: Result) {
    var e := SummaryAt(res.byClass, c.class_);
    && next.checks == res.checks + [c]
    && next.tlsFailure == (res.tlsFailure || c.tlsFailure)
    && next.total == res.total + (if Scored(c) then 1 else 0)
    && next.okCount == res.okCount + (if Scored(c) && c.ok then 1 else 0)
    && next.notMeasured == res.notMeasured + (if !c.canary && c.notMeasured then 1 else 0)
    && next.byClass ==
         if !Scored(c) then res.byClass
         else res.byClass[c.class_ := ClassSummary(e.ok + (if c.ok then 1 else 0), e.total + 1)]
  }

  lemma OneMoreTallied(res: Result, c: CheckResult, next: Result, echoTls: bool)
    requires Tallies(res, echoTls) && Counts(res, c, next)
    ensures Tallies(next, echoTls)
  {
    CountAppend(res.checks, c, IsScored());
    CountAppend(res.checks, c, IsPassed());
    CountAppend(res.checks, c, IsNotMeasured());
    OneMoreCounted(res.byClass, res.checks, c);
    OneMoreTls(res.checks, c);
  }

  method CountCheck(before: Result, c: CheckResult) returns (res: Result)
    ensures Counts(before, c, res)
  {
    res := before.(checks := before.checks + [c]);
    if c.tlsFailure {
      res := res.(tlsFailure := true);
    }
    if c.canary {
      return;
    }
    if c.notMeasured {
      res := res.(notMeasured := res.notMeasured + 1);
      return;
    }
    var s := SummaryAt(res.byClass, c.class_);
    s := s.(total := s.total + 1);
    res := res.(total := res.total + 1);
    if c.ok {
      s := s.(ok := s.ok + 1);
      res := res.(okCount := res.okCount + 1);
    }
    res := res.(byClass := res.byClass[c.class_ := s]);
  }

  method Score(checks: seq<CheckResult>, dests: seq<Destination>, place: Place, echoTls: bool) returns (res: Result)
    requires |checks| == |dests|
    ensures res.checks == Marked(checks, dests, place) && Tallies(res, echoTls)
  {
    res := Result([], 0, 0, 0, map[], echoTls);
    for i := 0 to |checks|
      invariant res.checks == Marked(checks, dests, place)[..i] && Tallies(res, echoTls)
    {
      ghost var before := res;
      var incompatible := FindIncompatible(dests[i], place);
      var c := checks[i].(canary := dests[i].canary && incompatible);
      res := CountCheck(res, c);
      OneMoreTallied(before, c, res, echoTls);
    }
  }

  // ----- It decomposes exactly -----

  /** The names of the checks selected, in table order. */
  function NamesWhere(s: seq<CheckResult>, want: CheckResult -> bool): seq<string> {
    if s == [] then []
    else
      var r := s[|s| - 1];
      NamesWhere(s[..|s| - 1], want) + if want(r) then [r.name] else []
  }

  method ListNames(s: seq<CheckResult>, want: CheckResult -> bool) returns (names: seq<string>)
    ensures names == NamesWhere(s, want)
  {
    names := [];
    for i := 0 to |s|
      invariant names == NamesWhere(s[..i], want)
    {
      assert s[..i + 1][..i] == s[..i];
      if want(s[i]) {
        names := names + [s[i].name];
      }
    }
    assert s[..|s|] == s;
  }

  lemma {:induction false} NamesCount(s: seq<CheckResult>, want: CheckResult -> bool)
    ensures |NamesWhere(s, want)| == Count(s, want)
  {
    if s != [] {
      NamesCount(s[..|s| - 1], want);
    }
  }

  /** A list holds the name of each check selected, at the place that check has among
      them. */
  lemma {:induction false} NameOfEach(s: seq<CheckResult>, want: CheckResult -> bool, i: nat)
    requires i < |s| && want(s[i])
    ensures Count(s[..i], want) < |NamesWhere(s, want)|
    ensures NamesWhere(s, want)[Count(s[..i], want)] == s[i].name
  {
    var n := |s| - 1;
    NamesCount(s[..n], want);
    if i < n {
      NameOfEach(s[..n], want, i);
      assert s[..n][..i] == s[..i];
    }
  }

  lemma {:induction false} Split(s: seq<CheckResult>, whole: CheckResult -> bool, part: CheckResult -> bool,
                                 rest: CheckResult -> bool)
    requires forall i :: 0 <= i < |s| ==> (whole(s[i]) <==> part(s[i]) || rest(s[i])) && !(part(s[i]) && rest(s[i]))
    ensures Count(s, whole) == Count(s, part) + Count(s, rest)
  {
    if s != [] {
      Split(s[..|s| - 1], whole, part, rest);
    }
  }

  lemma {:induction false} CountAll(s: seq<CheckResult>, p: CheckResult -> bool)
    requires forall i :: 0 <= i < |s| ==> p(s[i])
    ensures Count(s, p) == |s|
  {
    if s != [] {
      CountAll(s[..|s| - 1], p);
    }
  }

  function Unscored(): CheckResult -> bool { (r: CheckResult) => r.canary || r.notMeasured }

  function Anything(): CheckResult -> bool { (r: CheckResult) => true }

  /** Passed, failed, not measured and canary partition the checks, and the failed are
      named one by one. */
  lemma {:induction false} ChecksPartition(s: seq<CheckResult>)
    ensures Count(s, IsScored()) == Count(s, IsPassed()) + |NamesWhere(s, IsFailed())|
    ensures |s| == Count(s, IsPassed()) + |NamesWhere(s, IsFailed())|
                   + |NamesWhere(s, IsNotMeasured())| + Count(s, IsCanary())
  {
    NamesCount(s, IsFailed());
    NamesCount(s, IsNotMeasured());
    Split(s, IsScored(), IsPassed(), IsFailed());
    Split(s, Unscored(), IsCanary(), IsNotMeasured());
    Split(s, Anything(), IsScored(), Unscored());
    CountAll(s, Anything());
  }

  /** A load passed and not measured, both, cannot come of a chain of attempts. */
  lemma VerdictIsEither(name: string, class_: string, h: seq<Attempt>, cause: string, attempts: int)
    requires IsChain(h, attempts)
    ensures var r := Verdict(name, class_, h, cause); !(r.ok && r.notMeasured) && !(r.tlsFailure && r.notMeasured)
  {
    VerdictMeaning(name, class_, h, cause, attempts);
  }

  lemma {:induction false} CanariesPartition(s: seq<CheckResult>)
    requires forall i :: 0 <= i < |s| ==> !(s[i].ok && s[i].notMeasured)
    ensures Count(s, IsCanary()) ==
              |NamesWhere(s, IsCanaryPassed())| + |NamesWhere(s, IsCanaryFailed())| + Count(s, IsCanaryNotMeasured())
  {
    NamesCount(s, IsCanaryPassed());
    NamesCount(s, IsCanaryFailed());
    Split(s, IsCanary(), CanaryMeasured(), IsCanaryNotMeasured());
    Split(s, CanaryMeasured(), IsCanaryPassed(), IsCanaryFailed());
  }

  function CanaryMeasured(): CheckResult -> bool { (r: CheckResult) => r.canary && !r.notMeasured }

  function SumOk(cs: seq<string>, m: map<string, ClassSummary>): nat {
    if cs == [] then 0 else SumOk(cs[..|cs| - 1], m) + SummaryAt(m, cs[|cs| - 1]).ok
  }

  function SumTotal(cs: seq<string>, m: map<string, ClassSummary>): nat {
    if cs == [] then 0 else SumTotal(cs[..|cs| - 1], m) + SummaryAt(m, cs[|cs| - 1]).total
  }

  function ScoredIn(cs: seq<string>): CheckResult -> bool { (r: CheckResult) => Scored(r) && r.class_ in cs }

  function PassedIn(cs: seq<string>): CheckResult -> bool { (r: CheckResult) => Scored(r) && r.ok && r.class_ in cs }

  lemma {:induction false} CountNone(s: seq<CheckResult>, p: CheckResult -> bool)
    requires forall i :: 0 <= i < |s| ==> !p(s[i])
    ensures Count(s, p) == 0
  {
    if s != [] {
      CountNone(s[..|s| - 1], p);
    }
  }

  lemma {:induction false} SumsOver(cs: seq<string>, m: map<string, ClassSummary>, s: seq<CheckResult>)
    requires NoRepeats(cs) && Counted(m, s)
    ensures SumTotal(cs, m) == Count(s, ScoredIn(cs)) && SumOk(cs, m) == Count(s, PassedIn(cs))
  {
    if cs == [] {
      CountNone(s, ScoredIn(cs));
      CountNone(s, PassedIn(cs));
    } else {
      var rest, c := cs[..|cs| - 1], cs[|cs| - 1];
      assert cs == rest + [c] && c !in rest;
      SumsOver(rest, m, s);
      assert EntryFor(m, s, c);
      Split(s, ScoredIn(cs), ScoredIn(rest), ScoredOf(c));
      Split(s, PassedIn(cs), PassedIn(rest), PassedOf(c));
    }
  }

  /** The classes' tallies, in whatever order they are listed, add up to the run's. */
  lemma ClassesSum(cs: seq<string>, m: map<string, ClassSummary>, s: seq<CheckResult>)
    requires NoRepeats(cs) && Counted(m, s) && forall c :: c in m ==> c in cs
    ensures SumTotal(cs, m) == Count(s, IsScored()) && SumOk(cs, m) == Count(s, IsPassed())
  {
    SumsOver(cs, m, s);
    forall i | 0 <= i < |s| && Scored(s[i]) ensures s[i].class_ in cs {
      CountPositive(s, ScoredOf(s[i].class_));
      assert ScoredOf(s[i].class_)(s[i]);
      assert EntryFor(m, s, s[i].class_);
    }
    CountAgree(s, ScoredIn(cs), IsScored());
    CountAgree(s, PassedIn(cs), IsPassed());
  }

  lemma {:induction false} CountAgree(s: seq<CheckResult>, p: CheckResult -> bool, q: CheckResult -> bool)
    requires forall i :: 0 <= i < |s| ==> p(s[i]) == q(s[i])
    ensures Count(s, p) == Count(s, q)
  {
    if s != [] {
      CountAgree(s[..|s| - 1], p, q);
    }
  }

  // ----- The tally of a planned run -----

  function OrdinaryOf(c: string): CheckResult -> bool { (r: CheckResult) => !r.canary && r.class_ == c }

  function NotMeasuredOf(c: string): CheckResult -> bool {
    (r: CheckResult) => !r.canary && r.notMeasured && r.class_ == c
  }

  /** Each load is of its destination's class, and every incompatible one is a canary. */
  ghost predicate LoadsOf(checks: seq<CheckResult>, dests: seq<Destination>, place: Place) {
    && |checks| == |dests|
    && (forall i :: 0 <= i < |checks| ==> checks[i].class_ == dests[i].class_)
    && (forall i :: 0 <= i < |dests| ==> IncompatibleWith(dests[i], place) ==> dests[i].canary)
  }

  lemma {:induction false} OrdinaryCount(checks: seq<CheckResult>, dests: seq<Destination>, place: Place, c: string)
    requires LoadsOf(checks, dests, place)
    ensures Count(Marked(checks, dests, place), OrdinaryOf(c)) == |IndicesOf(Compatible(dests, place), c)|
  {
    if dests != [] {
      var n := |dests| - 1;
      var before, r := Marked(checks[..n], dests[..n], place), MarkedOne(checks[n], dests[n], place);
      OrdinaryCount(checks[..n], dests[..n], place, c);
      assert Marked(checks, dests, place) == before + [r];
      CountAppend(before, r, OrdinaryOf(c));
      assert dests == dests[..n] + [dests[n]];
      SplitNext(dests[..n], place, dests[n]);
      OneMoreIndex(Compatible(dests[..n], place), dests[n], c);
    }
  }

  /** In a sampled run of a table with unique names, each class's scored loads and those
      not measured come together to its share of the sample: its declared size, or all
      the compatible ones if those are fewer.  No canary, and no incompatible
      destination, is among them. */
  lemma ClassAddsUp(table: seq<Destination>, place: Place, draws: seq<seq<nat>>, checks: seq<CheckResult>,
                    m: map<string, ClassSummary>, c: string)
    requires UniqueNames(table) && LegalDraws(Compatible(table, place), SAMPLE_SIZES, draws)
    requires var dests := Chosen(table, place, false, draws);
             && |checks| == |dests| && (forall i :: 0 <= i < |checks| ==> checks[i].class_ == dests[i].class_)
             && Counted(m, Marked(checks, dests, place))
    ensures var available := |IndicesOf(Compatible(table, place), c)|;
            SummaryAt(m, c).total + Count(Marked(checks, Chosen(table, place, false, draws), place), NotMeasuredOf(c))
            == if c in CLASSES then Min(SAMPLE_SIZES[c], available) else available
  {
    var dests := Chosen(table, place, false, draws);
    var s := Marked(checks, dests, place);
    PlanIsSampleAndCanaries(table, place, false, draws);
    assert forall i :: 0 <= i < |dests| ==> dests[i] in dests;
    OrdinaryCount(checks, dests, place, c);
    ClassShare(table, place, draws, c);
    assert EntryFor(m, s, c);
    Split(s, OrdinaryOf(c), ScoredOf(c), NotMeasuredOf(c));
  }

  // ----- What the warm-ups saw -----

  /** One warm-up's outcome: the address an echo answered with, or why none did. */
  datatype Outcome = Answered(ip: string, at: int) | Refused(err: string, tls: bool)

  predicate HasAddress(o: Outcome) {
    o.Answered? && o.ip != ""
  }

  /** The first address among the outcomes, or what there is instead of one. */
  function FirstAddress(h: seq<Outcome>): (string, int) {
    if h == [] then ("", 0)
    else
      var before, o := FirstAddress(h[..|h| - 1]), h[|h| - 1];
      if before.0 == "" && o.Answered? then (o.ip, o.at) else before
  }

  lemma {:induction false} FirstAddressStands(h: seq<Outcome>, k: nat)
    requires k < |h| && HasAddress(h[k]) && forall j :: 0 <= j < k ==> !HasAddress(h[j])
    ensures FirstAddress(h) == (h[k].ip, h[k].at)
  {
    var n := |h| - 1;
    if k == n {
      NoAddress(h[..n]);
    } else {
      FirstAddressStands(h[..n], k);
    }
  }

  lemma {:induction false} NoAddress(h: seq<Outcome>)
    requires forall j :: 0 <= j < |h| ==> !HasAddress(h[j])
    ensures FirstAddress(h).0 == ""
  {
    if h != [] {
      NoAddress(h[..|h| - 1]);
    }
  }

  function LastError(h: seq<Outcome>): string {
    if h != [] && h[|h| - 1].Refused? then h[|h| - 1].err else ""
  }

  ghost predicate SawTls(h: seq<Outcome>) {
    exists k :: 0 <= k < |h| && h[k].Refused? && h[k].tls
  }

  lemma OneMoreSeen(h: seq<Outcome>, o: Outcome)
    ensures SawTls(h + [o]) <==> SawTls(h) || (o.Refused? && o.tls)
    ensures FirstAddress(h + [o]) == if FirstAddress(h).0 == "" && o.Answered? then (o.ip, o.at) else FirstAddress(h)
  {
    var all := h + [o];
    assert all[..|h|] == h && all[|h|] == o;
    if SawTls(h) {
      var k :| 0 <= k < |h| && h[k].Refused? && h[k].tls;
      assert all[k] == h[k];
    }
  }

  class ExitRecord {
    var ip: string
    var observedAt: int
    var errMessage: string
    var tlsFailure: bool
    ghost var seen: seq<Outcome>

    /** The fields are what the outcomes seen so far, in their order, come to. */
    ghost predicate Valid() reads this {
      && (ip, observedAt) == FirstAddress(seen)
      && errMessage == (if ip == "" then LastError(seen) else "")
      && (tlsFailure <==> SawTls(seen))
    }

    constructor ()
      ensures Valid() && seen == []
    {
      ip, observedAt, errMessage, tlsFailure, seen := "", 0, "", false, [];
    }

    method Record(o: Outcome)
      requires Valid()
      modifies this
      ensures Valid() && seen == old(seen) + [o]
      ensures old(ip) != "" ==> ip == old(ip) && observedAt == old(observedAt) && errMessage == old(errMessage)
      ensures old(ip) == "" && o.Refused? ==> ip == "" && errMessage == o.err
      ensures old(ip) == "" && o.Answered? ==> ip == o.ip && observedAt == o.at && errMessage == ""
      ensures tlsFailure <==> old(tlsFailure) || (o.Refused? && o.tls)
    {
      if o.Refused? {
        if ip == "" {
          errMessage := o.err;
        }
        if o.tls {
          tlsFailure := true;
        }
      } else if ip == "" {
        ip, observedAt, errMessage := o.ip, o.at, "";
      }
      OneMoreSeen(seen, o);
      seen := seen + [o];
    }
  }
}
