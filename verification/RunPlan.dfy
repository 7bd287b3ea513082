/** Which destinations a run loads: the sample of each class, put in table order, and
    the canaries for the provider's place besides. */
module RunPlan {
  import opened Common
  import opened Destinations
  import opened Sampling

  // ----- Classes and their sizes -----

  /** The size of each class's sample. */
  const SAMPLE_SIZES: map<string, int> := map[DNS := 6, CONNECTIVITY := 8, CDN := 10, SITE := 26]

  /** The positions of a class's destinations, in table order. */
  function IndicesOf(dests: seq<Destination>, c: string): seq<nat> {
    if dests == [] then []
    else
      var n := |dests| - 1;
      IndicesOf(dests[..n], c) + if dests[n].class_ == c then [n] else []
  }

  /** The classes of a table in the order they first occur, each once. */
  function TableClasses(dests: seq<Destination>): seq<string> {
    if dests == [] then []
    else
      var before, c := TableClasses(dests[..|dests| - 1]), dests[|dests| - 1].class_;
      if c in before then before else before + [c]
  }

  /** How many of a class's `total` destinations are drawn: its declared size, or all of
      them if there are fewer or none is declared. */
  function SampleCount(total: nat, c: string, sizes: map<string, int>): nat {
    if c !in sizes || sizes[c] <= 0 || total < sizes[c] then total else sizes[c]
  }

  lemma {:induction false} IndicesMembers(dests: seq<Destination>, c: string, p: nat)
    ensures p in IndicesOf(dests, c) <==> p < |dests| && dests[p].class_ == c
  {
    if dests != [] {
      IndicesMembers(dests[..|dests| - 1], c, p);
    }
  }

  lemma {:induction false} IndicesDistinct(dests: seq<Destination>, c: string)
    ensures Distinct(IndicesOf(dests, c))
  {
    if dests != [] {
      var n := |dests| - 1;
      IndicesDistinct(dests[..n], c);
      var before := IndicesOf(dests[..n], c);
      forall k | 0 <= k < |before| ensures before[k] != n {
        IndicesMembers(dests[..n], c, before[k]);
      }
    }
  }

  lemma OneMoreIndex(dests: seq<Destination>, d: Destination, c: string)
    ensures IndicesOf(dests + [d], c) == IndicesOf(dests, c) + if d.class_ == c then [|dests|] else []
  {
    assert (dests + [d])[..|dests|] == dests;
  }

  lemma {:induction false} ClassesMembers(dests: seq<Destination>, c: string)
    ensures c in TableClasses(dests) <==> HasClass(dests, c)
  {
    if dests != [] {
      var n := |dests| - 1;
      ClassesMembers(dests[..n], c);
      OneMoreClass(dests[..n], dests[n]);
      assert dests == dests[..n] + [dests[n]];
    }
  }

  ghost predicate NoRepeats<T>(s: seq<T>) {
    forall i, j :: 0 <= i < j < |s| ==> s[i] != s[j]
  }

  lemma {:induction false} ClassesOnce(dests: seq<Destination>)
    ensures NoRepeats(TableClasses(dests))
  {
    if dests != [] {
      ClassesOnce(dests[..|dests| - 1]);
    }
  }

  method ListClasses(dests: seq<Destination>) returns (out: seq<string>)
    ensures out == TableClasses(dests)
  {
    out := [];
    var seen: set<string> := {};
    for i := 0 to |dests|
      invariant out == TableClasses(dests[..i]) && forall c :: c in seen <==> c in out
    {
      assert dests[..i + 1][..i] == dests[..i];
      if dests[i].class_ in seen {
        continue;
      }
      seen := seen + {dests[i].class_};
      out := out + [dests[i].class_];
    }
    assert dests[..|dests|] == dests;
  }

  /** A lookup that finds nothing reads as the empty list. */
  function At(m: map<string, seq<nat>>, c: string): seq<nat> {
    if c in m then m[c] else []
  }

  ghost predicate Groups(byClass: map<string, seq<nat>>, dests: seq<Destination>) {
    forall c :: At(byClass, c) == IndicesOf(dests, c)
  }

  /** Every class's positions, as one pass over the table collects them. */
  method GroupByClass(dests: seq<Destination>) returns (byClass: map<string, seq<nat>>)
    ensures Groups(byClass, dests)
  {
    byClass := map[];
    for i := 0 to |dests|
      invariant Groups(byClass, dests[..i])
    {
      var d, before := dests[i], byClass;
      byClass := byClass[d.class_ := At(byClass, d.class_) + [i]];
      assert dests[..i + 1] == dests[..i] + [d];
      forall c ensures At(byClass, c) == IndicesOf(dests[..i + 1], c) {
        OneMoreIndex(dests[..i], d, c);
        assert At(before, c) == IndicesOf(dests[..i], c);
      }
    }
    assert dests[..|dests|] == dests;
  }

  method CountSample(dests: seq<Destination>, c: string, sizes: map<string, int>) returns (n: nat)
    ensures n == SampleCount(|IndicesOf(dests, c)|, c, sizes)
  {
    var total := 0;
    for i := 0 to |dests|
      invariant total == |IndicesOf(dests[..i], c)|
    {
      assert dests[..i + 1] == dests[..i] + [dests[i]];
      OneMoreIndex(dests[..i], dests[i], c);
      if dests[i].class_ == c {
        total := total + 1;
      }
    }
    assert dests[..|dests|] == dests;
    if c !in sizes || sizes[c] <= 0 || total < sizes[c] {
      return total;
    }
    return sizes[c];
  }

  // ----- One run's sample -----

  /** What a class's draws pick. */
  function Picked(idx: seq<nat>, n: nat, js: seq<nat>): seq<nat>
    requires n < |idx| ==> |js| == n && ValidDraws(js, 0, |idx|)
  {
    if |idx| <= n then idx else Shuffled(idx, 0, js)[..n]
  }

  /** The generator's draws for one class: as many as its sample needs, each naming a
      place not yet filled. */
  ghost predicate LegalFor(dests: seq<Destination>, sizes: map<string, int>, c: string, js: seq<nat>) {
    var m := |IndicesOf(dests, c)|;
    SampleCount(m, c, sizes) < m ==> |js| == SampleCount(m, c, sizes) && ValidDraws(js, 0, m)
  }

  /** One list of draws for each class of the table, in order. */
  ghost predicate LegalDraws(dests: seq<Destination>, sizes: map<string, int>, draws: seq<seq<nat>>) {
    && |draws| == |TableClasses(dests)|
    && forall k :: 0 <= k < |draws| ==> LegalFor(dests, sizes, TableClasses(dests)[k], draws[k])
  }

  ghost function ClassPick(dests: seq<Destination>, sizes: map<string, int>, c: string, js: seq<nat>): seq<nat>
    requires LegalFor(dests, sizes, c, js)
  {
    Picked(IndicesOf(dests, c), SampleCount(|IndicesOf(dests, c)|, c, sizes), js)
  }

  /** The positions picked for the first `k` classes. */
  ghost function PickSet(dests: seq<Destination>, sizes: map<string, int>, draws: seq<seq<nat>>, k: nat): set<nat>
    requires LegalDraws(dests, sizes, draws) && k <= |draws|
  {
    if k == 0 then {}
    else
      var pick := ClassPick(dests, sizes, TableClasses(dests)[k - 1], draws[k - 1]);
      PickSet(dests, sizes, draws, k - 1) + Elements(pick)
  }

  lemma {:induction false} ShuffledPermutes(s: seq<nat>, i: nat, js: seq<nat>)
    requires Distinct(s) && ValidDraws(js, i, |s|)
    ensures Distinct(Shuffled(s, i, js)) && Elements(Shuffled(s, i, js)) == Elements(s)
    decreases |js|
  {
    if js != [] {
      SwapDistinct(s, i, js[0]);
      SwapElements(s, i, js[0]);
      ShuffledPermutes(Swap(s, i, js[0]), i + 1, js[1..]);
    }
  }

  ghost predicate AllOfClass(dests: seq<Destination>, c: string, ps: set<nat>) {
    forall p :: p in ps ==> p < |dests| && dests[p].class_ == c
  }

  lemma PickedMeaning(idx: seq<nat>, n: nat, js: seq<nat>)
    requires Distinct(idx) && (n < |idx| ==> |js| == n && ValidDraws(js, 0, |idx|))
    ensures var picked := Picked(idx, n, js);
            Distinct(picked) && Elements(picked) <= Elements(idx) && |Elements(picked)| == |picked| == Min(n, |idx|)
  {
    var picked := Picked(idx, n, js);
    if n < |idx| {
      ShuffledPermutes(idx, 0, js);
      var r := Shuffled(idx, 0, js);
      forall p | p in Elements(r[..n]) ensures p in Elements(idx) {
        assert p in r && p in Elements(r);
      }
    }
    ElementsCount(picked);
  }

  /** A class's pick is of that class, without repeats, and of the size it should be. */
  lemma ClassPickMeaning(dests: seq<Destination>, sizes: map<string, int>, c: string, js: seq<nat>)
    requires LegalFor(dests, sizes, c, js)
    ensures var picked := ClassPick(dests, sizes, c, js);
            && Distinct(picked) && AllOfClass(dests, c, Elements(picked))
            && |Elements(picked)| == |picked| == SampleCount(|IndicesOf(dests, c)|, c, sizes)
  {
    var idx := IndicesOf(dests, c);
    IndicesDistinct(dests, c);
    PickedMeaning(idx, SampleCount(|idx|, c, sizes), js);
    forall p | p in Elements(idx) ensures p < |dests| && dests[p].class_ == c {
      IndicesMembers(dests, c, p);
    }
  }

  /** Of the lists of draws for a class that has more destinations than its sample takes, each
      subset of that size is picked by as many as any other: one for each order of it. */
  lemma EverySampleEquallyLikely(dests: seq<Destination>, sizes: map<string, int>, c: string, chosen: set<nat>)
    requires var n := SampleCount(|IndicesOf(dests, c)|, c, sizes);
             n < |IndicesOf(dests, c)| && |chosen| == n && AllOfClass(dests, c, chosen)
    ensures var n := SampleCount(|IndicesOf(dests, c)|, c, sizes);
            var picking := DrawsLeaving(IndicesOf(dests, c), n, chosen);
            && |picking| == Factorial(n)
            && forall js :: js in picking <==>
                 LegalFor(dests, sizes, c, js) && Elements(ClassPick(dests, sizes, c, js)) == chosen
  {
    var idx, n := IndicesOf(dests, c), SampleCount(|IndicesOf(dests, c)|, c, sizes);
    IndicesDistinct(dests, c);
    forall p | p in chosen ensures p in Elements(idx) {
      IndicesMembers(dests, c, p);
    }
    EverySubsetEquallyLikely(idx, n, chosen);
    forall js ensures js in DrawsLeaving(idx, n, chosen) <==>
        LegalFor(dests, sizes, c, js) && Elements(ClassPick(dests, sizes, c, js)) == chosen
    {
      DrawsLeavingMembers(idx, n, chosen, js);
    }
  }

  ghost predicate AllOfClasses(dests: seq<Destination>, cs: seq<string>, ps: set<nat>) {
    forall p :: p in ps ==> p < |dests| && dests[p].class_ in cs
  }

  lemma {:induction false} PickSetClasses(dests: seq<Destination>, sizes: map<string, int>, draws: seq<seq<nat>>,
                                          k: nat)
    requires LegalDraws(dests, sizes, draws) && k <= |draws|
    ensures AllOfClasses(dests, TableClasses(dests)[..k], PickSet(dests, sizes, draws, k))
  {
    if k > 0 {
      var classes := TableClasses(dests);
      PickSetClasses(dests, sizes, draws, k - 1);
      ClassPickMeaning(dests, sizes, classes[k - 1], draws[k - 1]);
      assert classes[..k] == classes[..k - 1] + [classes[k - 1]];
    }
  }

  /** The positions of one class among those picked. */
  ghost function OfClass(dests: seq<Destination>, picked: set<nat>, c: string): set<nat> {
    set p | p in picked && p < |dests| && dests[p].class_ == c
  }

  lemma OfClassAfter(dests: seq<Destination>, before: set<nat>, now: set<nat>, cs: seq<string>, c: string, b: string)
    requires AllOfClasses(dests, cs, before) && AllOfClass(dests, c, now) && c !in cs
    ensures OfClass(dests, before + now, b) == if b == c then now else OfClass(dests, before, b)
  {
    if b == c {
      assert OfClass(dests, before + now, b) == now;
    } else {
      assert OfClass(dests, before + now, b) == OfClass(dests, before, b);
    }
  }

  lemma LaterClass(cs: seq<string>, k: nat)
    requires NoRepeats(cs) && k < |cs|
    ensures cs[k] !in cs[..k]
  {
  }

  lemma {:induction false} PickedOfClass(dests: seq<Destination>, sizes: map<string, int>, draws: seq<seq<nat>>,
                                         k: nat, j: nat)
    requires LegalDraws(dests, sizes, draws) && j < k <= |draws|
    ensures OfClass(dests, PickSet(dests, sizes, draws, k), TableClasses(dests)[j])
            == Elements(ClassPick(dests, sizes, TableClasses(dests)[j], draws[j]))
  {
    var classes := TableClasses(dests);
    var c := classes[k - 1];
    var before, now := PickSet(dests, sizes, draws, k - 1), Elements(ClassPick(dests, sizes, c, draws[k - 1]));
    assert c !in classes[..k - 1] && (j < k - 1 ==> classes[j] != c) by {
      ClassesOnce(dests);
      LaterClass(classes, k - 1);
    }
    assert AllOfClasses(dests, classes[..k - 1], before) by { PickSetClasses(dests, sizes, draws, k - 1); }
    assert AllOfClass(dests, c, now) by { ClassPickMeaning(dests, sizes, c, draws[k - 1]); }
    OfClassAfter(dests, before, now, classes[..k - 1], c, classes[j]);
    if j < k - 1 {
      PickedOfClass(dests, sizes, draws, k - 1, j);
    }
  }

  /** Of each class exactly as many are picked as its sample takes. */
  lemma SampleSizes(dests: seq<Destination>, sizes: map<string, int>, draws: seq<seq<nat>>, c: string)
    requires LegalDraws(dests, sizes, draws)
    ensures |OfClass(dests, PickSet(dests, sizes, draws, |draws|), c)| == SampleCount(|IndicesOf(dests, c)|, c, sizes)
  {
    var picked := PickSet(dests, sizes, draws, |draws|);
    PickSetClasses(dests, sizes, draws, |draws|);
    ClassesMembers(dests, c);
    if c in TableClasses(dests) {
      var j :| 0 <= j < |draws| && TableClasses(dests)[j] == c;
      PickedOfClass(dests, sizes, draws, |draws|, j);
      ClassPickMeaning(dests, sizes, c, draws[j]);
    } else {
      assert OfClass(dests, picked, c) == {};
      NoIndices(dests, c);
    }
  }

  lemma {:induction false} NoIndices(dests: seq<Destination>, c: string)
    requires !HasClass(dests, c)
    ensures IndicesOf(dests, c) == []
  {
    if dests != [] {
      var n := |dests| - 1;
      OneMoreClass(dests[..n], dests[n]);
      assert dests == dests[..n] + [dests[n]];
      NoIndices(dests[..n], c);
    }
  }

  // ----- Back in table order -----

  ghost predicate Increasing(s: seq<nat>) {
    forall i, j :: 0 <= i < j < |s| ==> s[i] < s[j]
  }

  lemma Concat(a: seq<nat>, b: seq<nat>)
    ensures Elements(a + b) == Elements(a) + Elements(b)
    ensures Distinct(a) && Distinct(b) && Elements(a) !! Elements(b) ==> Distinct(a + b)
  {
    if Distinct(a) && Distinct(b) && Elements(a) !! Elements(b) {
      forall i, j | 0 <= i < j < |a + b| ensures (a + b)[i] != (a + b)[j] {
        if i < |a| <= j {
          assert a[i] in Elements(a) && b[j - |a|] in Elements(b);
        }
      }
    }
  }

  lemma Inserted(r: seq<nat>, k: nat, x: nat)
    requires Increasing(r) && k <= |r|
    requires k > 0 ==> r[k - 1] < x
    requires k < |r| ==> x < r[k]
    ensures Increasing(r[..k] + [x] + r[k..])
  {
    var t := r[..k] + [x] + r[k..];
    forall i, j | 0 <= i < j < |t| ensures t[i] < t[j] {
      assert i < k ==> t[i] == r[i] <= r[k - 1];
      assert j > k ==> t[j] == r[j - 1] >= r[k];
    }
  }

  lemma InsertedElements(r: seq<nat>, k: nat, x: nat)
    requires k <= |r|
    ensures Elements(r[..k] + [x] + r[k..]) == Elements(r) + {x}
  {
    Concat(r[..k], r[k..]);
    assert r[..k] + r[k..] == r;
    Concat(r[..k], [x]);
    Concat(r[..k] + [x], r[k..]);
  }

  /** Sorting positions without repeats. */
  method SortInts(s: seq<nat>) returns (r: seq<nat>)
    requires Distinct(s)
    ensures Increasing(r) && Elements(r) == Elements(s)
  {
    r := [];
    for i := 0 to |s|
      invariant Increasing(r) && Elements(r) == Elements(s[..i])
    {
      var k := |r|;
      assert s[i] !in Elements(s[..i]);
      while 0 < k && s[i] < r[k - 1]
        invariant 0 <= k <= |r|
        invariant k < |r| ==> s[i] < r[k]
      {
        k := k - 1;
      }
      assert k > 0 ==> r[k - 1] in Elements(r);
      Inserted(r, k, s[i]);
      InsertedElements(r, k, s[i]);
      Concat(s[..i], [s[i]]);
      assert s[..i + 1] == s[..i] + [s[i]];
      r := r[..k] + [s[i]] + r[k..];
    }
    assert s[..|s|] == s;
  }

  /** The destinations at the positions picked, in table order. */
  function Select(dests: seq<Destination>, picked: set<nat>): seq<Destination> {
    if dests == [] then []
    else
      var n := |dests| - 1;
      Select(dests[..n], picked) + if n in picked then [dests[n]] else []
  }

  lemma {:induction false} SameBelow(dests: seq<Destination>, a: set<nat>, b: set<nat>)
    requires forall p :: 0 <= p < |dests| ==> (p in a <==> p in b)
    ensures Select(dests, a) == Select(dests, b)
  {
    if dests != [] {
      SameBelow(dests[..|dests| - 1], a, b);
    }
  }

  lemma {:induction false} NothingSelected(dests: seq<Destination>)
    ensures Select(dests, {}) == []
  {
    if dests != [] {
      NothingSelected(dests[..|dests| - 1]);
    }
  }

  /** One more position, after all those picked so far. */
  lemma {:induction false} SelectNext(dests: seq<Destination>, picked: set<nat>, p: nat)
    requires p < |dests| && forall q :: q in picked ==> q < p
    ensures Select(dests, picked + {p}) == Select(dests, picked) + [dests[p]]
  {
    var n := |dests| - 1;
    if p == n {
      SameBelow(dests[..n], picked + {p}, picked);
    } else {
      SelectNext(dests[..n], picked, p);
    }
  }

  /** `picked` lists, each once, the positions picked for the first `k` classes. */
  ghost predicate PicksFor(dests: seq<Destination>, sizes: map<string, int>, draws: seq<seq<nat>>, k: nat,
                           picked: seq<nat>)
    requires LegalDraws(dests, sizes, draws) && k <= |draws|
  {
    Distinct(picked) && Elements(picked) == PickSet(dests, sizes, draws, k)
  }

  /** One class's draw: its indices, shuffled in place as far as its sample goes. */
  method DrawClass(dests: seq<Destination>, sizes: map<string, int>, c: string, idx: seq<nat>, js: seq<nat>)
    returns (picked: seq<nat>)
    requires LegalFor(dests, sizes, c, js) && idx == IndicesOf(dests, c)
    ensures picked == ClassPick(dests, sizes, c, js)
  {
    var n := CountSample(dests, c, sizes);
    if |idx| <= n {
      return idx;
    }
    var shuffled := new nat[|idx|](i requires 0 <= i < |idx| => idx[i]);
    assert shuffled[..] == idx;
    PartialShuffle(shuffled, js);
    return shuffled[..n];
  }

  method PickNext(dests: seq<Destination>, sizes: map<string, int>, draws: seq<seq<nat>>,
                  byClass: map<string, seq<nat>>,
                  classes: seq<string>, k: nat, picked: seq<nat>)
    returns (next: seq<nat>)
    requires LegalDraws(dests, sizes, draws) && Groups(byClass, dests) && classes == TableClasses(dests)
    requires k < |classes| && PicksFor(dests, sizes, draws, k, picked)
    ensures PicksFor(dests, sizes, draws, k + 1, next)
  {
    assert LegalFor(dests, sizes, classes[k], draws[k]);
    var now := DrawClass(dests, sizes, classes[k], At(byClass, classes[k]), draws[k]);
    OneMoreClassPicked(dests, sizes, draws, k, picked);
    next := picked + now;
  }

  /** The positions picked, class by class. */
  method PickClasses(dests: seq<Destination>, sizes: map<string, int>, draws: seq<seq<nat>>) returns (picked: seq<nat>)
    requires LegalDraws(dests, sizes, draws)
    ensures PicksFor(dests, sizes, draws, |draws|, picked)
  {
    var byClass := GroupByClass(dests);
    var classes := ListClasses(dests);
    picked := [];
    for k := 0 to |classes|
      invariant PicksFor(dests, sizes, draws, k, picked)
    {
      picked := PickNext(dests, sizes, draws, byClass, classes, k, picked);
    }
  }

  /** The sample's positions, in table order. */
  method SamplePositions(dests: seq<Destination>, sizes: map<string, int>, draws: seq<seq<nat>>)
    returns (positions: seq<nat>)
    requires LegalDraws(dests, sizes, draws)
    ensures Increasing(positions) && Elements(positions) == PickSet(dests, sizes, draws, |draws|)
  {
    var picked := PickClasses(dests, sizes, draws);
    positions := SortInts(picked);
  }

  lemma OneMoreClassPicked(dests: seq<Destination>, sizes: map<string, int>, draws: seq<seq<nat>>, k: nat,
                           picked: seq<nat>)
    requires LegalDraws(dests, sizes, draws) && k < |draws| && PicksFor(dests, sizes, draws, k, picked)
    ensures PicksFor(dests, sizes, draws, k + 1, picked + ClassPick(dests, sizes, TableClasses(dests)[k], draws[k]))
  {
    var c := TableClasses(dests)[k];
    var now := ClassPick(dests, sizes, c, draws[k]);
    ClassesOnce(dests);
    LaterClass(TableClasses(dests), k);
    PickSetClasses(dests, sizes, draws, k);
    ClassPickMeaning(dests, sizes, c, draws[k]);
    Disjoint(dests, TableClasses(dests)[..k], c, Elements(picked), Elements(now));
    Concat(picked, now);
  }

  lemma Disjoint(dests: seq<Destination>, cs: seq<string>, c: string, before: set<nat>, now: set<nat>)
    requires AllOfClasses(dests, cs, before) && AllOfClass(dests, c, now) && c !in cs
    ensures before !! now
  {
  }

  lemma NextAt(dests: seq<Destination>, positions: seq<nat>, k: nat)
    requires Increasing(positions) && k < |positions| && positions[k] < |dests|
    ensures Select(dests, Elements(positions[..k + 1])) ==
              Select(dests, Elements(positions[..k])) + [dests[positions[k]]]
  {
    assert positions[..k + 1] == positions[..k] + [positions[k]];
    Concat(positions[..k], [positions[k]]);
    assert Elements([positions[k]]) == {positions[k]};
    SelectNext(dests, Elements(positions[..k]), positions[k]);
  }

  method SelectAt(dests: seq<Destination>, positions: seq<nat>) returns (out: seq<Destination>)
    requires Increasing(positions) && forall k :: 0 <= k < |positions| ==> positions[k] < |dests|
    ensures out == Select(dests, Elements(positions))
  {
    out := [];
    NothingSelected(dests);
    assert Elements(positions[..0]) == {};
    for k := 0 to |positions|
      invariant out == Select(dests, Elements(positions[..k]))
    {
      NextAt(dests, positions, k);
      out := out + [dests[positions[k]]];
    }
    assert positions[..|positions|] == positions;
  }

  method SampleDestinations(dests: seq<Destination>, sizes: map<string, int>, draws: seq<seq<nat>>)
    returns (out: seq<Destination>)
    requires LegalDraws(dests, sizes, draws)
    ensures out == Select(dests, PickSet(dests, sizes, draws, |draws|))
  {
    var positions := SamplePositions(dests, sizes, draws);
    assert forall k :: 0 <= k < |positions| ==> positions[k] < |dests| by {
      PickSetClasses(dests, sizes, draws, |draws|);
      assert forall k :: 0 <= k < |positions| ==> positions[k] in Elements(positions);
    }
    out := SelectAt(dests, positions);
  }

  // ----- The plan -----

  function Names(s: seq<Destination>): set<string> {
    set d | d in s :: d.name
  }

  /** The destinations of a table with one of the names. */
  function ByName(table: seq<Destination>, names: set<string>): seq<Destination> {
    if table == [] then []
    else
      var d := table[|table| - 1];
      ByName(table[..|table| - 1], names) + if d.name in names then [d] else []
  }

  /** What a run scores: all that is compatible, or the sample of it. */
  ghost function Sample(table: seq<Destination>, place: Place, all: bool, draws: seq<seq<nat>>): seq<Destination>
    requires !all ==> LegalDraws(Compatible(table, place), SAMPLE_SIZES, draws)
  {
    var compatible := Compatible(table, place);
    if all then compatible else Select(compatible, PickSet(compatible, SAMPLE_SIZES, draws, |draws|))
  }

  ghost function Chosen(table: seq<Destination>, place: Place, all: bool, draws: seq<seq<nat>>): seq<Destination>
    requires !all ==> LegalDraws(Compatible(table, place), SAMPLE_SIZES, draws)
  {
    var scored, canaries := Sample(table, place, all, draws), Canaries(table, place);
    if canaries == [] then scored else ByName(table, Names(scored) + Names(canaries))
  }

  predicate IsShort(dests: seq<Destination>, c: string) {
    c in SAMPLE_SIZES && |IndicesOf(dests, c)| < SAMPLE_SIZES[c]
  }

  function ShortOf(dests: seq<Destination>, cs: seq<string>): seq<string> {
    if cs == [] then []
    else
      var c := cs[|cs| - 1];
      ShortOf(dests, cs[..|cs| - 1]) + if IsShort(dests, c) then [c] else []
  }

  method CountClasses(dests: seq<Destination>) returns (counts: map<string, nat>)
    ensures forall c :: (if c in counts then counts[c] else 0) == |IndicesOf(dests, c)|
  {
    counts := map[];
    for i := 0 to |dests|
      invariant forall c :: (if c in counts then counts[c] else 0) == |IndicesOf(dests[..i], c)|
    {
      var d, before := dests[i], counts;
      counts := counts[d.class_ := (if d.class_ in counts then counts[d.class_] else 0) + 1];
      assert dests[..i + 1] == dests[..i] + [d];
      forall c ensures (if c in counts then counts[c] else 0) == |IndicesOf(dests[..i + 1], c)| {
        OneMoreIndex(dests[..i], d, c);
        assert (if c in before then before[c] else 0) == |IndicesOf(dests[..i], c)|;
      }
    }
    assert dests[..|dests|] == dests;
  }

  method NamesOf(s: seq<Destination>) returns (names: set<string>)
    ensures names == Names(s)
  {
    names := {};
    for i := 0 to |s|
      invariant names == Names(s[..i])
    {
      assert s[..i + 1] == s[..i] + [s[i]];
      names := names + {s[i].name};
    }
    assert s[..|s|] == s;
  }

  method ListShort(dests: seq<Destination>) returns (shortClasses: seq<string>)
    ensures shortClasses == ShortOf(dests, CLASSES)
  {
    var counts := CountClasses(dests);
    shortClasses := [];
    for k := 0 to |CLASSES|
      invariant shortClasses == ShortOf(dests, CLASSES[..k])
    {
      var c := CLASSES[k];
      assert CLASSES[..k + 1][..k] == CLASSES[..k];
      assert (if c in counts then counts[c] else 0) == |IndicesOf(dests, c)|;
      if c in SAMPLE_SIZES && (if c in counts then counts[c] else 0) < SAMPLE_SIZES[c] {
        shortClasses := shortClasses + [c];
      }
    }
    assert CLASSES[..|CLASSES|] == CLASSES;
  }

  method FilterByName(table: seq<Destination>, names: set<string>) returns (chosen: seq<Destination>)
    ensures chosen == ByName(table, names)
  {
    chosen := [];
    for i := 0 to |table|
      invariant chosen == ByName(table[..i], names)
    {
      assert table[..i + 1][..i] == table[..i];
      if table[i].name in names {
        chosen := chosen + [table[i]];
      }
    }
    assert table[..|table|] == table;
  }

  /** What one run loads, and the classes it could not fill. */
  method PlanRun(table: seq<Destination>, place: Place, all: bool, draws: seq<seq<nat>>)
    returns (chosen: seq<Destination>, shortClasses: seq<string>)
    requires !all ==> LegalDraws(Compatible(table, place), SAMPLE_SIZES, draws)
    ensures chosen == Chosen(table, place, all, draws)
    ensures shortClasses == if all then [] else ShortOf(Compatible(table, place), CLASSES)
  {
    var compatible, canaries := ForPlace(table, place);
    shortClasses := [];
    if all {
      chosen := compatible;
    } else {
      chosen := SampleDestinations(compatible, SAMPLE_SIZES, draws);
      shortClasses := ListShort(compatible);
    }
    if 0 < |canaries| {
      var picked := NamesOf(chosen);
      var unscored := NamesOf(canaries);
      chosen := FilterByName(table, picked + unscored);
    }
  }

  // ----- What the plan promises -----

  /** `s` is some of `t`, in the same order and each place of `t` at most once. */
  ghost predicate InOrder(s: seq<Destination>, t: seq<Destination>)
    decreases |t|
  {
    || s == []
    || (t != [] && InOrder(s, t[..|t| - 1]))
    || (t != [] && s[|s| - 1] == t[|t| - 1] && InOrder(s[..|s| - 1], t[..|t| - 1]))
  }

  lemma InOrderGrows(s: seq<Destination>, t: seq<Destination>, d: Destination)
    requires InOrder(s, t)
    ensures InOrder(s + [], t + [d]) && InOrder(s + [d], t + [d])
  {
    assert (s + [d])[..|s|] == s && (t + [d])[..|t|] == t && s + [] == s;
  }

  lemma {:induction false} InOrderMembers(s: seq<Destination>, t: seq<Destination>, d: Destination)
    requires InOrder(s, t) && d in s
    ensures d in t
    decreases |t|
  {
    var m, n := |s| - 1, |t| - 1;
    if InOrder(s, t[..n]) {
      InOrderMembers(s, t[..n], d);
    } else if d != s[m] {
      assert s == s[..m] + [s[m]];
      InOrderMembers(s[..m], t[..n], d);
    }
  }

  lemma {:induction false} InOrderTransitive(r: seq<Destination>, s: seq<Destination>, t: seq<Destination>)
    requires InOrder(r, s) && InOrder(s, t)
    ensures InOrder(r, t)
    decreases |t|
  {
    if r != [] && t != [] {
      var m, n := |s| - 1, |t| - 1;
      if InOrder(s, t[..n]) {
        InOrderTransitive(r, s, t[..n]);
      } else if InOrder(r, s[..m]) {
        InOrderTransitive(r, s[..m], t[..n]);
      } else {
        InOrderTransitive(r[..|r| - 1], s[..m], t[..n]);
      }
    }
  }

  lemma {:induction false} SelectInOrder(dests: seq<Destination>, picked: set<nat>)
    ensures InOrder(Select(dests, picked), dests)
  {
    if dests != [] {
      var n := |dests| - 1;
      SelectInOrder(dests[..n], picked);
      InOrderGrows(Select(dests[..n], picked), dests[..n], dests[n]);
      assert dests == dests[..n] + [dests[n]];
    }
  }

  lemma {:induction false} CompatibleInOrder(table: seq<Destination>, place: Place)
    ensures InOrder(Compatible(table, place), table) && InOrder(Canaries(table, place), table)
  {
    if table != [] {
      var n := |table| - 1;
      CompatibleInOrder(table[..n], place);
      InOrderGrows(Compatible(table[..n], place), table[..n], table[n]);
      InOrderGrows(Canaries(table[..n], place), table[..n], table[n]);
      assert table == table[..n] + [table[n]];
    }
  }

  lemma {:induction false} ByNameInOrder(table: seq<Destination>, names: set<string>)
    ensures InOrder(ByName(table, names), table)
  {
    if table != [] {
      var n := |table| - 1;
      ByNameInOrder(table[..n], names);
      InOrderGrows(ByName(table[..n], names), table[..n], table[n]);
      assert table == table[..n] + [table[n]];
    }
  }

  lemma {:induction false} InOrderUnique(s: seq<Destination>, t: seq<Destination>)
    requires InOrder(s, t) && UniqueNames(t)
    ensures UniqueNames(s)
    decreases |t|
  {
    if s != [] {
      var m, n := |s| - 1, |t| - 1;
      if InOrder(s, t[..n]) {
        InOrderUnique(s, t[..n]);
      } else {
        InOrderUnique(s[..m], t[..n]);
        forall i | 0 <= i < m ensures s[i].name != s[m].name {
          assert s[..m][i] == s[i];
          InOrderMembers(s[..m], t[..n], s[i]);
        }
      }
    }
  }

  lemma {:induction false} SameNames(table: seq<Destination>, a: set<string>, b: set<string>)
    requires forall d :: d in table ==> (d.name in a <==> d.name in b)
    ensures ByName(table, a) == ByName(table, b)
  {
    if table != [] {
      var n := |table| - 1;
      assert table[n] in table;
      forall d | d in table[..n] ensures d.name in a <==> d.name in b {
        assert d in table;
      }
      SameNames(table[..n], a, b);
    }
  }

  /** Names identify what was picked from a table whose names are unique. */
  lemma {:induction false} NamesRecover(s: seq<Destination>, t: seq<Destination>)
    requires InOrder(s, t) && UniqueNames(t)
    ensures ByName(t, Names(s)) == s
    decreases |t|
  {
    if t == [] {
    } else {
      var n := |t| - 1;
      if InOrder(s, t[..n]) {
        NamesRecover(s, t[..n]);
        forall d | d in s ensures d.name != t[n].name {
          InOrderMembers(s, t[..n], d);
        }
      } else {
        var m := |s| - 1;
        NamesRecover(s[..m], t[..n]);
        assert s == s[..m] + [s[m]];
        assert Names(s) == Names(s[..m]) + {s[m].name};
        SameNames(t[..n], Names(s), Names(s[..m]));
      }
    }
  }

  lemma SplitNext(table: seq<Destination>, place: Place, d: Destination)
    ensures Compatible(table + [d], place) ==
              if IncompatibleWith(d, place) then Compatible(table, place) else Compatible(table, place) + [d]
    ensures Canaries(table + [d], place) ==
              if IncompatibleWith(d, place) && d.canary then Canaries(table, place) + [d] else Canaries(table, place)
  {
    assert (table + [d])[..|table|] == table;
    assert Compatible(table, place) + [] == Compatible(table, place);
    assert Canaries(table, place) + [] == Canaries(table, place);
  }

  lemma ByNameNext(table: seq<Destination>, names: set<string>, d: Destination)
    ensures ByName(table + [d], names) == if d.name in names then ByName(table, names) + [d] else ByName(table, names)
  {
    assert (table + [d])[..|table|] == table;
    assert ByName(table, names) + [] == ByName(table, names);
  }

  lemma {:induction false} SplitOfByName(table: seq<Destination>, place: Place, names: set<string>)
    ensures Compatible(ByName(table, names), place) == ByName(Compatible(table, place), names)
    ensures Canaries(ByName(table, names), place) == ByName(Canaries(table, place), names)
  {
    if table != [] {
      var before, d := table[..|table| - 1], table[|table| - 1];
      assert table == before + [d];
      SplitOfByName(before, place, names);
      SplitNext(before, place, d);
      SplitNext(ByName(before, names), place, d);
      ByNameNext(before, names, d);
      ByNameNext(Compatible(before, place), names, d);
      ByNameNext(Canaries(before, place), names, d);
    }
  }

  lemma SampleInOrder(table: seq<Destination>, place: Place, all: bool, draws: seq<seq<nat>>)
    requires !all ==> LegalDraws(Compatible(table, place), SAMPLE_SIZES, draws)
    ensures InOrder(Sample(table, place, all, draws), Compatible(table, place))
    ensures InOrder(Sample(table, place, all, draws), table)
  {
    var compatible := Compatible(table, place);
    if all {
      Reflexive(compatible);
    } else {
      SelectInOrder(compatible, PickSet(compatible, SAMPLE_SIZES, draws, |draws|));
    }
    CompatibleInOrder(table, place);
    InOrderTransitive(Sample(table, place, all, draws), compatible, table);
  }

  lemma {:induction false} Reflexive(s: seq<Destination>)
    ensures InOrder(s, s)
  {
    if s != [] {
      Reflexive(s[..|s| - 1]);
    }
  }


  lemma SameNameSame(table: seq<Destination>, a: Destination, b: Destination)
    requires UniqueNames(table) && a in table && b in table && a.name == b.name
    ensures a == b
  {
    var i :| 0 <= i < |table| && table[i] == a;
    var j :| 0 <= j < |table| && table[j] == b;
  }

  /** Whatever is drawn, the plan is the loads with a sampled or a canary's name. */
  lemma ChosenByName(table: seq<Destination>, place: Place, all: bool, draws: seq<seq<nat>>)
    requires !all ==> LegalDraws(Compatible(table, place), SAMPLE_SIZES, draws)
    requires UniqueNames(table)
    ensures Chosen(table, place, all, draws) ==
              ByName(table, Names(Sample(table, place, all, draws)) + Names(Canaries(table, place)))
  {
    var scored, canaries := Sample(table, place, all, draws), Canaries(table, place);
    if canaries == [] {
      SampleInOrder(table, place, all, draws);
      NamesRecover(scored, table);
      assert Names(scored) + Names(canaries) == Names(scored);
    }
  }

  /** A compatible destination's name is no canary's, and the other way round. */
  lemma NamesApart(table: seq<Destination>, place: Place, d: Destination, e: Destination)
    requires UniqueNames(table) && d in Compatible(table, place) && e in Canaries(table, place)
    ensures d.name != e.name
  {
    SplitMembers(table, place, d);
    SplitMembers(table, place, e);
    if d.name == e.name {
      SameNameSame(table, d, e);
    }
  }

  lemma SampleMembers(table: seq<Destination>, place: Place, all: bool, draws: seq<seq<nat>>, d: Destination)
    requires !all ==> LegalDraws(Compatible(table, place), SAMPLE_SIZES, draws)
    requires d in Sample(table, place, all, draws)
    ensures d in Compatible(table, place)
  {
    SampleInOrder(table, place, all, draws);
    InOrderMembers(Sample(table, place, all, draws), Compatible(table, place), d);
  }

  lemma ScoredAsSampled(table: seq<Destination>, place: Place, all: bool, draws: seq<seq<nat>>)
    requires !all ==> LegalDraws(Compatible(table, place), SAMPLE_SIZES, draws)
    requires UniqueNames(table)
    ensures Compatible(Chosen(table, place, all, draws), place) == Sample(table, place, all, draws)
  {
    var scored := Sample(table, place, all, draws);
    var canaries, compatible := Canaries(table, place), Compatible(table, place);
    var names := Names(scored) + Names(canaries);
    ChosenByName(table, place, all, draws);
    SplitOfByName(table, place, names);
    forall d | d in compatible ensures d.name in names <==> d.name in Names(scored) {
      if d.name in Names(canaries) {
        var e :| e in canaries && e.name == d.name;
        NamesApart(table, place, d, e);
      }
    }
    SameNames(compatible, names, Names(scored));
    SampleInOrder(table, place, all, draws);
    CompatibleInOrder(table, place);
    InOrderUnique(compatible, table);
    NamesRecover(scored, compatible);
  }

  lemma CanariesAllLoaded(table: seq<Destination>, place: Place, all: bool, draws: seq<seq<nat>>)
    requires !all ==> LegalDraws(Compatible(table, place), SAMPLE_SIZES, draws)
    requires UniqueNames(table)
    ensures Canaries(Chosen(table, place, all, draws), place) == Canaries(table, place)
  {
    var scored, canaries := Sample(table, place, all, draws), Canaries(table, place);
    var names := Names(scored) + Names(canaries);
    ChosenByName(table, place, all, draws);
    SplitOfByName(table, place, names);
    forall d | d in canaries ensures d.name in names <==> d.name in Names(canaries) {
      assert d.name in Names(canaries);
    }
    SameNames(canaries, names, Names(canaries));
    CompatibleInOrder(table, place);
    InOrderUnique(canaries, table);
    Reflexive(canaries);
    NamesRecover(canaries, canaries);
  }

  /** On any table: an incompatible load that is no canary can only be one that shares
      its name with something picked. */
  lemma ScoredThoughIncompatible(table: seq<Destination>, place: Place, all: bool, draws: seq<seq<nat>>, d: Destination)
    requires !all ==> LegalDraws(Compatible(table, place), SAMPLE_SIZES, draws)
    requires IncompatibleWith(d, place) && !d.canary
    ensures d in Chosen(table, place, all, draws) <==>
              && d in table && Canaries(table, place) != []
              && d.name in Names(Sample(table, place, all, draws)) + Names(Canaries(table, place))
  {
    var scored, canaries := Sample(table, place, all, draws), Canaries(table, place);
    if canaries == [] {
      if d in scored {
        SampleMembers(table, place, all, draws, d);
        SplitMembers(table, place, d);
      }
    } else {
      ByNameMembers(table, Names(scored) + Names(canaries), d);
    }
  }

  lemma {:induction false} ByNameMembers(table: seq<Destination>, names: set<string>, d: Destination)
    ensures d in ByName(table, names) <==> d in table && d.name in names
  {
    if table != [] {
      var n := |table| - 1;
      ByNameMembers(table[..n], names, d);
      assert table == table[..n] + [table[n]];
    }
  }

  // ----- Which incompatible destinations can be loaded though they are no canary -----

  /** `d` shares its name with a destination that a plan for the place can pick: one that
      is compatible, or a canary. */
  ghost predicate SharesName(table: seq<Destination>, place: Place, d: Destination) {
    exists e :: e in table && e.name == d.name && (!IncompatibleWith(e, place) || e.canary)
  }

  ghost predicate SomeDrawsLoad(table: seq<Destination>, place: Place, d: Destination) {
    exists draws :: LegalDraws(Compatible(table, place), SAMPLE_SIZES, draws) && d in Chosen(table, place, false, draws)
  }

  /** Draws for `n` places that put the element at `k` first and leave the others. */
  function DrawsFirst(n: nat, k: nat): (js: seq<nat>)
    ensures |js| == n
    ensures forall m :: n <= m && k < m ==> ValidDraws(js, 0, m)
  {
    seq(n, i requires 0 <= i < n => if i == 0 then k else i)
  }

  lemma FirstIsPicked(idx: seq<nat>, n: nat, k: nat)
    requires 0 < n && k < |idx|
    ensures idx[k] in Elements(Picked(idx, n, DrawsFirst(n, k)))
  {
    if n < |idx| {
      var js := DrawsFirst(n, k);
      ShuffledKeepsFilled(Swap(idx, 0, js[0]), 1, js[1..]);
      assert Shuffled(idx, 0, js)[..n][0] == idx[k];
    }
  }

  lemma {:induction false} PickSetHolds(dests: seq<Destination>, sizes: map<string, int>, draws: seq<seq<nat>>,
                                        k: nat, j: nat)
    requires LegalDraws(dests, sizes, draws) && j < k <= |draws|
    ensures Elements(ClassPick(dests, sizes, TableClasses(dests)[j], draws[j])) <= PickSet(dests, sizes, draws, k)
  {
    if j < k - 1 {
      PickSetHolds(dests, sizes, draws, k - 1, j);
    }
  }

  lemma {:induction false} SelectMembers(dests: seq<Destination>, picked: set<nat>, p: nat)
    requires p < |dests| && p in picked
    ensures dests[p] in Select(dests, picked)
  {
    var n := |dests| - 1;
    if p < n {
      SelectMembers(dests[..n], picked, p);
    }
  }

  /** The draws that put place `k` of each class's positions first. */
  function DrawsAll(dests: seq<Destination>, k: nat): (draws: seq<seq<nat>>)
    ensures |draws| == |TableClasses(dests)|
  {
    var cs := TableClasses(dests);
    seq(|cs|, j requires 0 <= j < |cs| =>
          var m := |IndicesOf(dests, cs[j])|;
          DrawsFirst(SampleCount(m, cs[j], SAMPLE_SIZES), if k < m then k else 0))
  }

  lemma DrawsAllLegal(dests: seq<Destination>, k: nat)
    ensures LegalDraws(dests, SAMPLE_SIZES, DrawsAll(dests, k))
  {
    var cs, draws := TableClasses(dests), DrawsAll(dests, k);
    forall j | 0 <= j < |draws| ensures LegalFor(dests, SAMPLE_SIZES, cs[j], draws[j]) {
      var m := |IndicesOf(dests, cs[j])|;
      assert |draws[j]| == SampleCount(m, cs[j], SAMPLE_SIZES);
    }
  }

  /** Whatever destination a table holds, some draws pick it. */
  lemma SomeDrawsPick(dests: seq<Destination>, e: Destination) returns (draws: seq<seq<nat>>)
    requires e in dests
    ensures LegalDraws(dests, SAMPLE_SIZES, draws)
    ensures e in Select(dests, PickSet(dests, SAMPLE_SIZES, draws, |draws|))
  {
    var p :| 0 <= p < |dests| && dests[p] == e;
    var c, cs, idx := e.class_, TableClasses(dests), IndicesOf(dests, e.class_);
    IndicesMembers(dests, c, p);
    var k :| 0 <= k < |idx| && idx[k] == p;
    draws := DrawsAll(dests, k);
    DrawsAllLegal(dests, k);
    ClassesMembers(dests, c);
    var j :| 0 <= j < |cs| && cs[j] == c;
    FirstIsPicked(idx, SampleCount(|idx|, c, SAMPLE_SIZES), k);
    PickSetHolds(dests, SAMPLE_SIZES, draws, |draws|, j);
    SelectMembers(dests, PickSet(dests, SAMPLE_SIZES, draws, |draws|), p);
  }

  lemma LoadedShares(table: seq<Destination>, place: Place, all: bool, draws: seq<seq<nat>>, d: Destination)
    requires !all ==> LegalDraws(Compatible(table, place), SAMPLE_SIZES, draws)
    requires IncompatibleWith(d, place) && !d.canary && d in Chosen(table, place, all, draws)
    ensures d in table && Canaries(table, place) != [] && SharesName(table, place, d)
  {
    var scored, canaries := Sample(table, place, all, draws), Canaries(table, place);
    ScoredThoughIncompatible(table, place, all, draws, d);
    if d.name in Names(scored) {
      var e :| e in scored && e.name == d.name;
      SampleMembers(table, place, all, draws, e);
      SplitMembers(table, place, e);
    } else {
      var e :| e in canaries && e.name == d.name;
      SplitMembers(table, place, e);
    }
  }

  lemma SharedIsLoaded(table: seq<Destination>, place: Place, all: bool, draws: seq<seq<nat>>, d: Destination,
                       e: Destination)
    requires !all ==> LegalDraws(Compatible(table, place), SAMPLE_SIZES, draws)
    requires IncompatibleWith(d, place) && !d.canary && d in table && Canaries(table, place) != [] && e.name == d.name
    requires e in Sample(table, place, all, draws) || e in Canaries(table, place)
    ensures d in Chosen(table, place, all, draws)
  {
    ScoredThoughIncompatible(table, place, all, draws, d);
    assert d.name in Names(Sample(table, place, all, draws)) + Names(Canaries(table, place));
  }

  /** Exactly when a table can have an incompatible destination loaded that is no canary,
      in a run of all or of a sample: if the place has canaries at all, and the destination
      shares its name with one that is compatible or is a canary. */
  lemma IncompatibleLoadedExactly(table: seq<Destination>, place: Place, d: Destination)
    requires IncompatibleWith(d, place) && !d.canary
    ensures d in Chosen(table, place, true, []) <==>
              d in table && Canaries(table, place) != [] && SharesName(table, place, d)
    ensures SomeDrawsLoad(table, place, d) <==>
              d in table && Canaries(table, place) != [] && SharesName(table, place, d)
  {
    var compatible := Compatible(table, place);
    if d in Chosen(table, place, true, []) {
      LoadedShares(table, place, true, [], d);
    }
    if draws :| LegalDraws(compatible, SAMPLE_SIZES, draws) && d in Chosen(table, place, false, draws) {
      LoadedShares(table, place, false, draws, d);
    }
    if d in table && Canaries(table, place) != [] && SharesName(table, place, d) {
      var e :| e in table && e.name == d.name && (!IncompatibleWith(e, place) || e.canary);
      SplitMembers(table, place, e);
      SharedIsLoaded(table, place, true, [], d, e);
      var draws := DrawsAll(compatible, 0);
      DrawsAllLegal(compatible, 0);
      if e in compatible {
        draws := SomeDrawsPick(compatible, e);
      }
      SharedIsLoaded(table, place, false, draws, d, e);
    }
  }

  /** With unique names it cannot happen: every incompatible load is a canary. */
  lemma IncompatibleIsCanary(table: seq<Destination>, place: Place, all: bool, draws: seq<seq<nat>>, d: Destination)
    requires !all ==> LegalDraws(Compatible(table, place), SAMPLE_SIZES, draws)
    requires UniqueNames(table) && d in Chosen(table, place, all, draws) && IncompatibleWith(d, place)
    ensures d.canary
  {
    var scored, canaries := Sample(table, place, all, draws), Canaries(table, place);
    if !d.canary {
      ScoredThoughIncompatible(table, place, all, draws, d);
      if d.name in Names(scored) {
        var e :| e in scored && e.name == d.name;
        SampleMembers(table, place, all, draws, e);
        SplitMembers(table, place, e);
        SameNameSame(table, d, e);
      } else {
        var e :| e in canaries && e.name == d.name;
        SplitMembers(table, place, e);
        SameNameSame(table, d, e);
      }
    }
  }

  /** The plan for a table with unique names: some of the table, in its order, nothing
      twice; what it scores is exactly the sample, and besides that it loads exactly the
      canaries. */
  lemma PlanIsSampleAndCanaries(table: seq<Destination>, place: Place, all: bool, draws: seq<seq<nat>>)
    requires !all ==> LegalDraws(Compatible(table, place), SAMPLE_SIZES, draws)
    requires UniqueNames(table)
    ensures var chosen := Chosen(table, place, all, draws);
            && InOrder(chosen, table) && UniqueNames(chosen)
            && Compatible(chosen, place) == Sample(table, place, all, draws)
            && Canaries(chosen, place) == Canaries(table, place)
            && forall d :: d in chosen && IncompatibleWith(d, place) ==> d.canary
  {
    var chosen := Chosen(table, place, all, draws);
    ChosenByName(table, place, all, draws);
    ByNameInOrder(table, Names(Sample(table, place, all, draws)) + Names(Canaries(table, place)));
    InOrderUnique(chosen, table);
    ScoredAsSampled(table, place, all, draws);
    CanariesAllLoaded(table, place, all, draws);
    forall d | d in chosen && IncompatibleWith(d, place) ensures d.canary {
      IncompatibleIsCanary(table, place, all, draws, d);
    }
  }

  lemma OneMoreOfClass(dests: seq<Destination>, picked: set<nat>, c: string)
    requires dests != []
    ensures var n := |dests| - 1;
            && n !in OfClass(dests[..n], picked, c)
            && OfClass(dests, picked, c) ==
                 OfClass(dests[..n], picked, c) + if n in picked && dests[n].class_ == c then {n} else {}
  {
  }

  lemma {:induction false} SelectedOfClass(dests: seq<Destination>, picked: set<nat>, c: string)
    ensures |IndicesOf(Select(dests, picked), c)| == |OfClass(dests, picked, c)|
  {
    if dests == [] {
      assert OfClass(dests, picked, c) == {};
    } else {
      var n := |dests| - 1;
      SelectedOfClass(dests[..n], picked, c);
      OneMoreIndex(Select(dests[..n], picked), dests[n], c);
      assert Select(dests[..n], picked) + [] == Select(dests[..n], picked);
      OneMoreOfClass(dests, picked, c);
    }
  }

  /** In sampled mode each scored class gets its declared number of loads, or all the
      compatible ones if those are fewer, and every other class all of them. */
  lemma ClassShare(table: seq<Destination>, place: Place, draws: seq<seq<nat>>, c: string)
    requires LegalDraws(Compatible(table, place), SAMPLE_SIZES, draws)
    ensures var available := |IndicesOf(Compatible(table, place), c)|;
            |IndicesOf(Sample(table, place, false, draws), c)| ==
              if c in CLASSES then Min(SAMPLE_SIZES[c], available) else available
  {
    var compatible := Compatible(table, place);
    SampleSizes(compatible, SAMPLE_SIZES, draws, c);
    SelectedOfClass(compatible, PickSet(compatible, SAMPLE_SIZES, draws, |draws|), c);
  }

  lemma {:induction false} ShortMembers(dests: seq<Destination>, cs: seq<string>, c: string)
    ensures c in ShortOf(dests, cs) <==> c in cs && IsShort(dests, c)
  {
    if cs != [] {
      var n := |cs| - 1;
      ShortMembers(dests, cs[..n], c);
      assert cs == cs[..n] + [cs[n]];
    }
  }

  /** A class is named short exactly if the run scores fewer of it than declared. */
  lemma ShortExactly(table: seq<Destination>, place: Place, draws: seq<seq<nat>>, c: string)
    requires LegalDraws(Compatible(table, place), SAMPLE_SIZES, draws)
    ensures c in ShortOf(Compatible(table, place), CLASSES) <==>
              c in CLASSES && |IndicesOf(Sample(table, place, false, draws), c)| < SAMPLE_SIZES[c]
  {
    ShortMembers(Compatible(table, place), CLASSES, c);
    ClassShare(table, place, draws, c);
  }

  /** Two names alike, and a scored load the place is known not to carry: the sampled one
      and the blocked one are both picked by the name they share. */
  lemma RepeatedNameIsScored()
    ensures exists table, place, d ::
              && d in Chosen(table, place, true, [])
              && IncompatibleWith(d, place) && !d.canary
  {
    var here := Place("de", "");
    var url := Url(true, "https", "a.example", "");
    var open := Destination("a", SITE, url, ExpectBody, 0, NoCheck, 0, [], false);
    var blocked := open.(incompatible := [here]);
    var canary := blocked.(name := "b", canary := true);
    var table := [open, blocked, canary];
    assert Covers(here, here) by {
      assert Trim("de") == "de" by { TrimmedAlready("de"); }
    }
    assert IncompatibleWith(blocked, here) && IncompatibleWith(canary, here) && !IncompatibleWith(open, here) by {
      assert Covers(blocked.incompatible[0], here);
      assert Covers(canary.incompatible[0], here);
    }
    SplitMembers(table, here, open);
    SplitMembers(table, here, canary);
    assert table[0] == open && table[1] == blocked && table[2] == canary;
    assert open.name in Names(Sample(table, here, true, []));
    ScoredThoughIncompatible(table, here, true, [], blocked);
    assert blocked in Chosen(table, here, true, []);
  }

  lemma TrimmedAlready(s: string)
    requires s != "" && !IsSpace(s[0]) && !IsSpace(s[|s| - 1])
    ensures Trim(s) == s
  {
  }
}
