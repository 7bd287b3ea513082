/** The destination table: which places rule a destination out, how a place divides a
    table into destinations scored and canaries, and which tables are accepted. */
module Destinations {
  import opened Common

  // ----- Places -----

  datatype Place = Place(country: string, region: string)

  predicate IsSpace(c: char) {
    c == ' ' || '\t' <= c <= '\r'
  }

  function TrimLeft(s: string): string {
    if s != "" && IsSpace(s[0]) then TrimLeft(s[1..]) else s
  }

  function TrimRight(s: string): string {
    if s != "" && IsSpace(s[|s| - 1]) then TrimRight(s[..|s| - 1]) else s
  }

  function Trim(s: string): string {
    TrimRight(TrimLeft(s))
  }

  function Lower(c: char): char {
    if 'A' <= c <= 'Z' then c - 'A' + 'a' else c
  }

  function Fold(s: string): string {
    seq(|s|, i requires 0 <= i < |s| => Lower(s[i]))
  }

  /** The entry rules `place` out. */
  predicate Covers(entry: Place, place: Place) {
    && Trim(entry.country) != ""
    && Fold(Trim(entry.country)) == Fold(Trim(place.country))
    && (Trim(entry.region) == "" || Fold(Trim(entry.region)) == Fold(Trim(place.region)))
  }

  predicate IsCountryCode(s: string) {
    |s| == 2 && 'a' <= s[0] <= 'z' && 'a' <= s[1] <= 'z'
  }

  predicate ValidPlace(p: Place) {
    IsCountryCode(Trim(p.country))
  }

  // ----- Destinations -----

  const DNS := "dns"
  const CONNECTIVITY := "connectivity"
  const CDN := "cdn"
  const SITE := "site"
  const CLASSES := [DNS, CONNECTIVITY, CDN, SITE]

  datatype Expect = ExpectBody | ExpectStatus | ExpectReachable | UnknownExpect

  datatype BodyCheck = NoCheck | DnsJson | IpText | Contains(text: string) | UnknownCheck

  /** A url as parsed: whether it parsed, and its scheme, host and port. */
  datatype Url = Url(parses: bool, scheme: string, host: string, port: string)

  datatype Destination = Destination(name: string, class_: string, url: Url, contract: Expect, status: int,
                                     verify: BodyCheck, maxBytes: int, incompatible: seq<Place>, canary: bool)

  predicate IncompatibleWith(d: Destination, place: Place) {
    exists k :: 0 <= k < |d.incompatible| && Covers(d.incompatible[k], place)
  }

  method FindIncompatible(d: Destination, place: Place) returns (found: bool)
    ensures found == IncompatibleWith(d, place)
  {
    for k := 0 to |d.incompatible|
      invariant forall j :: 0 <= j < k ==> !Covers(d.incompatible[j], place)
    {
      if Covers(d.incompatible[k], place) {
        return true;
      }
    }
    return false;
  }

  /** A destination is incompatible with a place exactly if one of its entries covers it. */
  lemma IncompatibleMeaning(d: Destination, place: Place)
    ensures IncompatibleWith(d, place) <==> exists entry :: entry in d.incompatible && Covers(entry, place)
  {
    if entry :| entry in d.incompatible && Covers(entry, place) {
      var k :| 0 <= k < |d.incompatible| && d.incompatible[k] == entry;
      assert Covers(d.incompatible[k], place);
    }
  }

  /** No entry covers a place whose country is not known, so such a place rules out no
      destination. */
  lemma UnknownPlaceExcludesNothing(d: Destination, place: Place)
    requires Trim(place.country) == ""
    ensures !IncompatibleWith(d, place)
  {
    forall k | 0 <= k < |d.incompatible| ensures !Covers(d.incompatible[k], place) {
      var country := Trim(d.incompatible[k].country);
      assert |Fold(country)| == |country|;
    }
  }

  /** A text is its trimmed part between spaces, and that part neither begins nor ends with one. */
  ghost predicate IsTrimmed(s: string, t: string) {
    && (t != "" ==> !Blank(t[0]) && !Blank(t[|t| - 1]))
    && exists a, b :: s == a + t + b && AllSpace(a) && AllSpace(b)
  }

  ghost predicate AllSpace(s: string) {
    forall i :: 0 <= i < |s| ==> Blank(s[i])
  }

  ghost predicate Blank(c: char) {
    c in " \t\n\U{B}\U{C}\r"
  }

  lemma {:induction false} TrimLeftMeaning(s: string)
    ensures TrimLeft(s) != "" ==> !IsSpace(TrimLeft(s)[0])
    ensures |TrimLeft(s)| <= |s| && s[|s| - |TrimLeft(s)|..] == TrimLeft(s) && AllSpace(s[..|s| - |TrimLeft(s)|])
  {
    if s != "" && IsSpace(s[0]) {
      TrimLeftMeaning(s[1..]);
      var k := |s[1..]| - |TrimLeft(s[1..])|;
      assert s[1..][k..] == s[k + 1..];
      forall i | 0 <= i < k + 1 ensures IsSpace(s[i]) {
        assert 0 < i ==> s[1..][..k][i - 1] == s[i];
      }
    }
  }

  lemma {:induction false} TrimRightMeaning(s: string)
    ensures TrimRight(s) != "" ==> !IsSpace(TrimRight(s)[|TrimRight(s)| - 1])
    ensures TrimRight(s) <= s && AllSpace(s[|TrimRight(s)|..])
  {
    if s != "" && IsSpace(s[|s| - 1]) {
      var n := |s| - 1;
      TrimRightMeaning(s[..n]);
      forall i | 0 <= i < |s| - |TrimRight(s)| ensures IsSpace(s[|TrimRight(s)|..][i]) {
        var k := |TrimRight(s)|;
        assert k + i < n ==> s[..n][k..][i] == s[k + i];
      }
    }
  }

  lemma TrimMeaning(s: string)
    ensures IsTrimmed(s, Trim(s))
  {
    TrimLeftMeaning(s);
    TrimRightMeaning(TrimLeft(s));
    var l, t := TrimLeft(s), Trim(s);
    var a, b := s[..|s| - |l|], l[|t|..];
    assert s == a + t + b;
    assert t != "" ==> t[0] == l[0];
  }

  /** The same letter, whatever its case. */
  predicate SameLetter(a: char, b: char) {
    a == b || ('A' <= a <= 'Z' && b == a - 'A' + 'a') || ('A' <= b <= 'Z' && a == b - 'A' + 'a')
  }

  /** Two names are the same but for their case and the space around them. */
  ghost predicate SameName(a: string, b: string) {
    |Trim(a)| == |Trim(b)| && forall i :: 0 <= i < |Trim(a)| ==> SameLetter(Trim(a)[i], Trim(b)[i])
  }

  lemma FoldMeaning(a: string, b: string)
    ensures Fold(Trim(a)) == Fold(Trim(b)) <==> SameName(a, b)
  {
    var x, y := Trim(a), Trim(b);
    if |x| == |y| {
      forall i | 0 <= i < |x| ensures SameLetter(x[i], y[i]) <==> Fold(x)[i] == Fold(y)[i] {
      }
    }
  }

  /** An entry with no region covers just the places of its country, one with a region just
      those of that region of it, and one with no country none; case and space aside. */
  lemma CoversMeaning(entry: Place, place: Place)
    ensures Trim(entry.country) == "" ==> !Covers(entry, place)
    ensures Trim(entry.country) != "" && Trim(entry.region) == "" ==>
              (Covers(entry, place) <==> SameName(entry.country, place.country))
    ensures Trim(entry.country) != "" && Trim(entry.region) != "" ==>
              (Covers(entry, place) <==>
                 SameName(entry.country, place.country) && SameName(entry.region, place.region))
  {
    FoldMeaning(entry.country, place.country);
    FoldMeaning(entry.region, place.region);
  }

  // ----- What makes a destination, and a table, one that can be run -----

  datatype Fault =
    | NoName | UnknownClass | BadUrl | WrongScheme | WrongPort | WrongExpect | WrongStatus | NotForItsClass
    | BadBodyCheck | DnsUnverified | ConnectivityUnverified | NegativeCap | BadPlace

  /** The first rule a destination breaks. */
  function Validate(d: Destination): Option<Fault> {
    if Trim(d.name) == "" then Some(NoName)
    else if d.class_ !in CLASSES then Some(UnknownClass)
    else if !d.url.parses then Some(BadUrl)
    else if d.url.scheme != "https" || d.url.host == "" then Some(WrongScheme)
    else if d.url.port != "" && d.url.port != "443" then Some(WrongPort)
    else if d.contract.UnknownExpect? then Some(WrongExpect)
    else if d.contract.ExpectStatus? && (d.status < 200 || 400 <= d.status) then Some(WrongStatus)
    else if !d.contract.ExpectStatus? && d.status != 0 then Some(WrongStatus)
    else if d.contract.ExpectReachable? && d.class_ != SITE then Some(NotForItsClass)
    else if d.verify.UnknownCheck? || d.verify == Contains("") then Some(BadBodyCheck)
    else if d.class_ == DNS && !d.verify.DnsJson? then Some(DnsUnverified)
    else if d.class_ == CONNECTIVITY && d.contract.ExpectBody? && d.verify.NoCheck? then Some(ConnectivityUnverified)
    else if d.maxBytes < 0 then Some(NegativeCap)
    else if exists k :: 0 <= k < |d.incompatible| && !ValidPlace(d.incompatible[k]) then Some(BadPlace)
    else None
  }

  /** The rules, each on its own. */
  ghost predicate Breaks(d: Destination, fault: Fault) {
    match fault
    case NoName => AllSpace(d.name)
    case UnknownClass => d.class_ != DNS && d.class_ != CONNECTIVITY && d.class_ != CDN && d.class_ != SITE
    case BadUrl => !d.url.parses
    case WrongScheme => !(d.url.scheme == "https" && d.url.host != "")
    case WrongPort => !(d.url.port == "" || d.url.port == "443")
    case WrongExpect => d.contract == UnknownExpect
    case WrongStatus => !(if d.contract == ExpectStatus then 200 <= d.status <= 399 else d.status == 0)
    case NotForItsClass => d.contract == ExpectReachable && d.class_ != SITE
    case BadBodyCheck => d.verify == UnknownCheck || d.verify == Contains("")
    case DnsUnverified => d.class_ == DNS && d.verify != DnsJson
    case ConnectivityUnverified => d.class_ == CONNECTIVITY && d.contract == ExpectBody && d.verify == NoCheck
    case NegativeCap => d.maxBytes < 0
    case BadPlace => exists k :: 0 <= k < |d.incompatible| && NoCountryCode(Trim(d.incompatible[k].country))
  }

  ghost predicate NoCountryCode(s: string) {
    |s| != 2 || exists i :: 0 <= i < |s| && (s[i] < 'a' || 'z' < s[i])
  }

  lemma SpaceTrimsToNothing(s: string)
    ensures Trim(s) == "" <==> AllSpace(s)
  {
    TrimMeaning(s);
    var a, b :| s == a + Trim(s) + b && AllSpace(a) && AllSpace(b);
    if Trim(s) != "" {
      assert s[|a|] == Trim(s)[0];
    } else {
      forall i | 0 <= i < |s| ensures IsSpace(s[i]) {
        assert s[i] == if i < |a| then a[i] else b[i - |a|];
      }
    }
  }

  /** A destination is accepted exactly if it breaks no rule, and the fault it is refused for
      is one it has. */
  lemma ValidateMeaning(d: Destination)
    ensures Validate(d) == None <==> forall fault :: !Breaks(d, fault)
    ensures Validate(d).Some? ==> Breaks(d, Validate(d).value)
  {
    SpaceTrimsToNothing(d.name);
    forall k | 0 <= k < |d.incompatible|
      ensures ValidPlace(d.incompatible[k]) <==> !NoCountryCode(Trim(d.incompatible[k].country))
    {
      var c := Trim(d.incompatible[k].country);
      assert |c| == 2 && (c[0] < 'a' || 'z' < c[0]) ==> NoCountryCode(c);
    }
    if Validate(d).Some? {
      assert Breaks(d, Validate(d).value);
    }
  }

  /** What a table can be refused for. */
  datatype Problem = Empty | Broken(index: nat, fault: Fault) | Repeats(index: nat) | ClassMissing(class_: string)

  ghost predicate UniqueNames(dests: seq<Destination>) {
    forall i, j :: 0 <= i < j < |dests| ==> dests[i].name != dests[j].name
  }

  ghost predicate AllValid(dests: seq<Destination>) {
    forall i :: 0 <= i < |dests| ==> Validate(dests[i]) == None
  }

  ghost predicate HasClass(dests: seq<Destination>, c: string) {
    exists i :: 0 <= i < |dests| && dests[i].class_ == c
  }

  /** One of the first `n` destinations is valid and has the name. */
  ghost predicate Named(dests: seq<Destination>, n: nat, name: string) {
    exists j :: 0 <= j < n && j < |dests| && Validate(dests[j]) == None && dests[j].name == name
  }

  /** The destination is valid, and the first valid one of its name. */
  ghost predicate Accepted(dests: seq<Destination>, i: nat) {
    i < |dests| && Validate(dests[i]) == None && !Named(dests, i, dests[i].name)
  }

  ghost predicate HasAccepted(dests: seq<Destination>, n: nat, c: string) {
    exists j :: 0 <= j < n && Accepted(dests, j) && dests[j].class_ == c
  }

  /** What there is to report of a table: that it is empty; each destination that is not valid,
      and why; each that repeats the name of a valid one before it; and each scored class that
      has no other. */
  ghost predicate IsProblem(dests: seq<Destination>, p: Problem) {
    match p
    case Empty => dests == []
    case Broken(i, fault) => i < |dests| && Validate(dests[i]) == Some(fault)
    case Repeats(i) => i < |dests| && Validate(dests[i]) == None && Named(dests, i, dests[i].name)
    case ClassMissing(c) => dests != [] && c in CLASSES && !HasAccepted(dests, |dests|, c)
  }

  /** What there is to report of the first `n` destinations, their classes apart. */
  ghost predicate IsProblemBefore(dests: seq<Destination>, p: Problem, n: nat) {
    (p.Broken? || p.Repeats?) && p.index < n && IsProblem(dests, p)
  }

  /** What there is to report of destination `i`, its class apart. */
  ghost function ProblemsAt(dests: seq<Destination>, i: nat): seq<Problem>
    requires i < |dests|
  {
    if Validate(dests[i]).Some? then [Broken(i, Validate(dests[i]).value)]
    else if Named(dests, i, dests[i].name) then [Repeats(i)]
    else []
  }

  lemma OneMoreProblem(dests: seq<Destination>, problems: seq<Problem>, i: nat)
    requires i < |dests| && forall p :: p in problems <==> IsProblemBefore(dests, p, i)
    ensures forall p :: p in problems + ProblemsAt(dests, i) <==> IsProblemBefore(dests, p, i + 1)
  {
    forall p ensures p in problems + ProblemsAt(dests, i) <==> IsProblemBefore(dests, p, i + 1) {
      assert p in problems <==> IsProblemBefore(dests, p, i);
    }
  }

  lemma AllAccepted(dests: seq<Destination>, n: nat)
    requires AllValid(dests) && UniqueNames(dests) && n <= |dests|
    ensures forall i :: 0 <= i < n ==> Accepted(dests, i)
  {
    forall i | 0 <= i < n ensures Accepted(dests, i) {
      assert Validate(dests[i]) == None;
    }
  }

  /** There is nothing to report exactly if the table can be run. */
  lemma NoProblemExactly(dests: seq<Destination>)
    ensures (forall p :: !IsProblem(dests, p)) <==>
              dests != [] && AllValid(dests) && UniqueNames(dests) && forall c :: c in CLASSES ==> HasClass(dests, c)
  {
    if forall p :: !IsProblem(dests, p) {
      NothingReported(dests);
    }
    if dests != [] && AllValid(dests) && UniqueNames(dests) && forall c :: c in CLASSES ==> HasClass(dests, c) {
      forall p ensures !IsProblem(dests, p) {
        NothingToReport(dests, p);
      }
    }
  }

  lemma NothingToReport(dests: seq<Destination>, p: Problem)
    requires dests != [] && AllValid(dests) && UniqueNames(dests) && forall c :: c in CLASSES ==> HasClass(dests, c)
    ensures !IsProblem(dests, p)
  {
    AllAccepted(dests, |dests|);
    if p.ClassMissing? && p.class_ in CLASSES {
      assert HasClass(dests, p.class_);
      var i :| 0 <= i < |dests| && dests[i].class_ == p.class_;
      assert Accepted(dests, i);
    }
  }

  lemma NothingReported(dests: seq<Destination>)
    requires forall p :: !IsProblem(dests, p)
    ensures dests != [] && AllValid(dests) && UniqueNames(dests) && forall c :: c in CLASSES ==> HasClass(dests, c)
  {
    assert !IsProblem(dests, Empty);
    forall i | 0 <= i < |dests| ensures Validate(dests[i]) == None {
      assert Validate(dests[i]).Some? ==> !IsProblem(dests, Broken(i, Validate(dests[i]).value));
    }
    forall i, j | 0 <= i < j < |dests| ensures dests[i].name != dests[j].name {
      assert !IsProblem(dests, Repeats(j));
      assert Validate(dests[i]) == None;
    }
    forall c | c in CLASSES ensures HasClass(dests, c) {
      assert !IsProblem(dests, ClassMissing(c));
    }
  }

  lemma OneMoreNamed(dests: seq<Destination>, n: nat)
    requires n < |dests|
    ensures forall name :: Named(dests, n + 1, name) <==>
              Named(dests, n, name) || (Validate(dests[n]) == None && dests[n].name == name)
    ensures forall c :: HasAccepted(dests, n + 1, c) <==>
              HasAccepted(dests, n, c) || (Accepted(dests, n) && dests[n].class_ == c)
  {
    forall c ensures HasAccepted(dests, n + 1, c) <==>
        HasAccepted(dests, n, c) || (Accepted(dests, n) && dests[n].class_ == c)
    {
      if j :| 0 <= j < n && Accepted(dests, j) && dests[j].class_ == c {
        assert HasAccepted(dests, n + 1, c);
      }
    }
  }

  lemma OneMoreClass(dests: seq<Destination>, d: Destination)
    ensures forall c :: HasClass(dests + [d], c) <==> HasClass(dests, c) || d.class_ == c
  {
    var all := dests + [d];
    assert all[|dests|] == d && forall i :: 0 <= i < |dests| ==> all[i] == dests[i];
  }

  /** Checks one destination after another, and counts the accepted ones by class. */
  method CheckEach(dests: seq<Destination>) returns (problems: seq<Problem>, perClass: map<string, nat>)
    ensures forall p :: p in problems <==> IsProblemBefore(dests, p, |dests|)
    ensures forall c :: c in perClass <==> HasAccepted(dests, |dests|, c)
    ensures forall c :: c in perClass ==> 0 < perClass[c]
  {
    problems, perClass := [], map[];
    var seen: set<string> := {};
    for i := 0 to |dests|
      invariant forall p :: p in problems <==> IsProblemBefore(dests, p, i)
      invariant forall n :: n in seen <==> Named(dests, i, n)
      invariant forall c :: c in perClass <==> HasAccepted(dests, i, c)
      invariant forall c :: c in perClass ==> 0 < perClass[c]
    {
      var d := dests[i];
      OneMoreNamed(dests, i);
      OneMoreProblem(dests, problems, i);
      var fault := Validate(d);
      if fault.Some? {
        problems := problems + [Broken(i, fault.value)];
      } else if d.name in seen {
        problems := problems + [Repeats(i)];
      } else {
        seen := seen + {d.name};
        perClass := perClass[d.class_ := (if d.class_ in perClass then perClass[d.class_] else 0) + 1];
      }
    }
  }

  /** Reports every problem of a table and nothing else, and so nothing exactly if the table
      can be run: it is not empty, each destination is valid, no two share a name, and every
      scored class is there. */
  method ValidateDestinations(dests: seq<Destination>) returns (problems: seq<Problem>)
    ensures forall p :: p in problems <==> IsProblem(dests, p)
    ensures problems == [] <==>
              dests != [] && AllValid(dests) && UniqueNames(dests) && forall c :: c in CLASSES ==> HasClass(dests, c)
  {
    NoProblemExactly(dests);
    if dests == [] {
      problems := [Empty];
      assert problems[0] == Empty;
      return;
    }
    var perClass: map<string, nat>;
    problems, perClass := CheckEach(dests);
    for k := 0 to |CLASSES|
      invariant forall p :: p in problems <==>
        || IsProblemBefore(dests, p, |dests|)
        || (p.ClassMissing? && p.class_ in CLASSES[..k] && IsProblem(dests, p))
    {
      assert CLASSES[..k + 1] == CLASSES[..k] + [CLASSES[k]];
      if CLASSES[k] !in perClass || perClass[CLASSES[k]] == 0 {
        problems := problems + [ClassMissing(CLASSES[k])];
      }
    }
    assert CLASSES[..|CLASSES|] == CLASSES;
    if problems != [] {
      assert IsProblem(dests, problems[0]);
    }
  }

  // ----- The division of a table by place -----

  /** The destinations a provider at `place` may be sampled from, in table order. */
  function Compatible(table: seq<Destination>, place: Place): seq<Destination> {
    if table == [] then []
    else
      var d := table[|table| - 1];
      Compatible(table[..|table| - 1], place) + if IncompatibleWith(d, place) then [] else [d]
  }

  /** The incompatible ones loaded all the same, unscored. */
  function Canaries(table: seq<Destination>, place: Place): seq<Destination> {
    if table == [] then []
    else
      var d := table[|table| - 1];
      Canaries(table[..|table| - 1], place) + if IncompatibleWith(d, place) && d.canary then [d] else []
  }

  method ForPlace(table: seq<Destination>, place: Place)
    returns (compatible: seq<Destination>, canaries: seq<Destination>)
    ensures compatible == Compatible(table, place) && canaries == Canaries(table, place)
  {
    compatible, canaries := [], [];
    for i := 0 to |table|
      invariant compatible == Compatible(table[..i], place) && canaries == Canaries(table[..i], place)
    {
      var d := table[i];
      assert table[..i + 1][..i] == table[..i];
      if !IncompatibleWith(d, place) {
        compatible := compatible + [d];
      } else if d.canary {
        canaries := canaries + [d];
      }
    }
    assert table[..|table|] == table;
  }

  lemma {:induction false} SplitMembers(table: seq<Destination>, place: Place, d: Destination)
    ensures d in Compatible(table, place) <==> d in table && !IncompatibleWith(d, place)
    ensures d in Canaries(table, place) <==> d in table && IncompatibleWith(d, place) && d.canary
  {
    if table != [] {
      var n := |table| - 1;
      SplitMembers(table[..n], place, d);
      assert table == table[..n] + [table[n]];
    }
  }
}
