/** Drawing one run's sample: a partial Fisher-Yates shuffle of each class's indices,
    put back in table order. */
module Sampling {
  import opened Arithmetic

  // ----- The draw -----

  function Swap(s: seq<nat>, i: nat, j: nat): seq<nat>
    requires i < |s| && j < |s|
  {
    s[i := s[j]][j := s[i]]
  }

  /** Draws for the positions from `i` on: each names a place not yet filled. */
  predicate ValidDraws(js: seq<nat>, i: nat, m: nat) {
    i + |js| <= m && forall k :: 0 <= k < |js| ==> i + k <= js[k] < m
  }

  /** The sequence once each draw has been swapped into its place. */
  function Shuffled(s: seq<nat>, i: nat, js: seq<nat>): (r: seq<nat>)
    requires ValidDraws(js, i, |s|)
    ensures |r| == |s|
    decreases |js|
  {
    if js == [] then s else Shuffled(Swap(s, i, js[0]), i + 1, js[1..])
  }

  /** The partial shuffle, in place. */
  method PartialShuffle(a: array<nat>, js: seq<nat>)
    requires ValidDraws(js, 0, a.Length)
    modifies a
    ensures a[..] == Shuffled(old(a[..]), 0, js)
  {
    var i := 0;
    while i < |js|
      invariant 0 <= i <= |js|
      invariant ValidDraws(js[i..], i, a.Length)
      invariant Shuffled(old(a[..]), 0, js) == Shuffled(a[..], i, js[i..])
    {
      var j := js[i];
      ghost var before := a[..];
      a[i], a[j] := a[j], a[i];
      assert a[..] == Swap(before, i, j);
      assert js[i..][0] == j && js[i..][1..] == js[i + 1..];
      i := i + 1;
    }
  }

  ghost predicate Distinct(s: seq<nat>) {
    forall i, j :: 0 <= i < j < |s| ==> s[i] != s[j]
  }

  lemma SwapDistinct(s: seq<nat>, i: nat, j: nat)
    requires Distinct(s) && i < |s| && j < |s|
    ensures Distinct(Swap(s, i, j))
  {
  }

  /** The places before `i` are filled already. */
  lemma {:induction false} ShuffledKeepsFilled(s: seq<nat>, i: nat, js: seq<nat>)
    requires ValidDraws(js, i, |s|)
    ensures forall k :: 0 <= k < i ==> Shuffled(s, i, js)[k] == s[k]
    decreases |js|
  {
    if js != [] {
      ShuffledKeepsFilled(Swap(s, i, js[0]), i + 1, js[1..]);
    }
  }

  ghost predicate OccursFrom(s: seq<nat>, i: nat, x: nat) {
    exists n :: i <= n < |s| && s[n] == x
  }

  /** An ordered choice among the elements of `s` from place `i` on. */
  ghost predicate IsArrangement(s: seq<nat>, i: nat, arranged: seq<nat>) {
    && i + |arranged| <= |s|
    && Distinct(arranged)
    && forall k :: 0 <= k < |arranged| ==> OccursFrom(s, i, arranged[k])
  }

  ghost function IndexFrom(s: seq<nat>, i: nat, x: nat): (n: nat)
    requires OccursFrom(s, i, x)
    ensures i <= n < |s| && s[n] == x
  {
    var n :| i <= n < |s| && s[n] == x;
    n
  }

  /** Swapping the element drawn into place `i` leaves every other one after it. */
  lemma StillOccurs(s: seq<nat>, i: nat, j: nat, x: nat)
    requires i <= j < |s| && OccursFrom(s, i, x) && x != s[j]
    ensures OccursFrom(Swap(s, i, j), i + 1, x)
  {
    var n :| i <= n < |s| && s[n] == x;
    var t := Swap(s, i, j);
    assert t[if n == i then j else n] == x;
  }

  lemma OccurredBefore(s: seq<nat>, i: nat, j: nat, x: nat)
    requires Distinct(s) && i <= j < |s| && OccursFrom(Swap(s, i, j), i + 1, x)
    ensures OccursFrom(s, i, x) && x != s[j]
  {
    var t := Swap(s, i, j);
    var n :| i + 1 <= n < |t| && t[n] == x;
    SwapDistinct(s, i, j);
    assert s[if n == j then i else n] == x && t[i] == s[j];
  }

  lemma SwapArrangement(s: seq<nat>, i: nat, arranged: seq<nat>)
    requires Distinct(s) && IsArrangement(s, i, arranged) && arranged != []
    ensures IsArrangement(Swap(s, i, IndexFrom(s, i, arranged[0])), i + 1, arranged[1..])
  {
    var j := IndexFrom(s, i, arranged[0]);
    forall k | 0 <= k < |arranged| - 1 ensures OccursFrom(Swap(s, i, j), i + 1, arranged[1..][k]) {
      assert arranged[1..][k] == arranged[k + 1] != arranged[0];
      StillOccurs(s, i, j, arranged[k + 1]);
    }
  }

  /** The draws that produce an arrangement. */
  ghost function DrawsFor(s: seq<nat>, i: nat, arranged: seq<nat>): (js: seq<nat>)
    requires Distinct(s) && IsArrangement(s, i, arranged)
    ensures |js| == |arranged| && ValidDraws(js, i, |s|)
    decreases |arranged|
  {
    if arranged == [] then []
    else
      var j := IndexFrom(s, i, arranged[0]);
      SwapDistinct(s, i, j);
      SwapArrangement(s, i, arranged);
      [j] + DrawsFor(Swap(s, i, j), i + 1, arranged[1..])
  }

  /** What a draw and the draws after it leave in their places. */
  lemma FirstAndRest(s: seq<nat>, i: nat, js: seq<nat>)
    requires ValidDraws(js, i, |s|) && js != []
    ensures var r := Shuffled(s, i, js);
            && i < |s| && js[0] < |s|
            && r == Shuffled(Swap(s, i, js[0]), i + 1, js[1..])
            && r[i..i + |js|] == [s[js[0]]] + r[i + 1..i + 1 + |js[1..]|]
  {
    ShuffledKeepsFilled(Swap(s, i, js[0]), i + 1, js[1..]);
  }

  /** Every ordered choice comes from the draws found for it. */
  lemma {:induction false} EveryArrangementIsDrawn(s: seq<nat>, i: nat, arranged: seq<nat>)
    requires Distinct(s) && IsArrangement(s, i, arranged)
    ensures Shuffled(s, i, DrawsFor(s, i, arranged))[i..i + |arranged|] == arranged
    decreases |arranged|
  {
    if arranged != [] {
      var j, js := IndexFrom(s, i, arranged[0]), DrawsFor(s, i, arranged);
      SwapDistinct(s, i, j);
      SwapArrangement(s, i, arranged);
      var rest := DrawsFor(Swap(s, i, j), i + 1, arranged[1..]);
      assert js == [j] + rest;
      assert js[1..] == rest;
      FirstAndRest(s, i, js);
      EveryArrangementIsDrawn(Swap(s, i, j), i + 1, arranged[1..]);
      assert arranged == [arranged[0]] + arranged[1..];
    }
  }

  /** An ordered choice made after the swap is one made before it, without the element
      drawn. */
  lemma ArrangedBefore(s: seq<nat>, i: nat, j: nat, rest: seq<nat>)
    requires Distinct(s) && i <= j < |s| && IsArrangement(Swap(s, i, j), i + 1, rest)
    ensures forall k :: 0 <= k < |rest| ==> OccursFrom(s, i, rest[k]) && rest[k] != s[j]
  {
    forall k | 0 <= k < |rest| ensures OccursFrom(s, i, rest[k]) && rest[k] != s[j] {
      OccurredBefore(s, i, j, rest[k]);
    }
  }

  /** What is drawn is an ordered choice, and no other draws produce it. */
  lemma {:induction false} DrawsAreRecovered(s: seq<nat>, i: nat, js: seq<nat>)
    requires Distinct(s) && ValidDraws(js, i, |s|)
    ensures IsArrangement(s, i, Shuffled(s, i, js)[i..i + |js|])
    ensures DrawsFor(s, i, Shuffled(s, i, js)[i..i + |js|]) == js
    decreases |js|
  {
    if js != [] {
      var j, t := js[0], Swap(s, i, js[0]);
      SwapDistinct(s, i, j);
      DrawsAreRecovered(t, i + 1, js[1..]);
      FirstAndRest(s, i, js);
      var rest := Shuffled(s, i, js)[i + 1..i + 1 + |js[1..]|];
      ArrangedBefore(s, i, j, rest);
      FirstArranged(s, i, j, rest);
      assert js == [j] + js[1..];
    }
  }

  lemma FirstArranged(s: seq<nat>, i: nat, j: nat, rest: seq<nat>)
    requires Distinct(s) && i <= j < |s| && i + 1 + |rest| <= |s| && Distinct(rest)
    requires forall k :: 0 <= k < |rest| ==> OccursFrom(s, i, rest[k]) && rest[k] != s[j]
    requires IsArrangement(Swap(s, i, j), i + 1, rest) && Distinct(Swap(s, i, j))
    ensures IsArrangement(s, i, [s[j]] + rest)
    ensures DrawsFor(s, i, [s[j]] + rest) == [j] + DrawsFor(Swap(s, i, j), i + 1, rest)
  {
    var arranged := [s[j]] + rest;
    assert arranged[1..] == rest;
    forall k | 0 <= k < |arranged| ensures OccursFrom(s, i, arranged[k]) {
      if k > 0 {
        assert arranged[k] == rest[k - 1];
      }
    }
    assert IndexFrom(s, i, arranged[0]) == j;
  }

  /** What these draws leave is an ordered choice, and the draws found for it are these. */
  ghost predicate Recovered(s: seq<nat>, js: seq<nat>)
    requires Distinct(s) && ValidDraws(js, 0, |s|)
  {
    && IsArrangement(s, 0, Shuffled(s, 0, js)[0..|js|])
    && DrawsFor(s, 0, Shuffled(s, 0, js)[0..|js|]) == js
  }

  /** The draws found for an ordered choice leave that choice. */
  ghost predicate Realized(s: seq<nat>, arranged: seq<nat>)
    requires Distinct(s) && IsArrangement(s, 0, arranged)
  {
    Shuffled(s, 0, DrawsFor(s, 0, arranged))[0..|arranged|] == arranged
  }

  /** The draws and the ordered choices of as many elements are in bijection. */
  lemma DrawIsABijection(s: seq<nat>, n: nat)
    requires Distinct(s) && n <= |s|
    ensures forall js :: |js| == n && ValidDraws(js, 0, |s|) ==> Recovered(s, js)
    ensures forall arranged :: |arranged| == n && IsArrangement(s, 0, arranged) ==>
              |DrawsFor(s, 0, arranged)| == n && ValidDraws(DrawsFor(s, 0, arranged), 0, |s|) && Realized(s, arranged)
  {
    forall js | |js| == n && ValidDraws(js, 0, |s|) ensures Recovered(s, js) {
      DrawsAreRecovered(s, 0, js);
    }
    forall arranged | |arranged| == n && IsArrangement(s, 0, arranged) ensures Realized(s, arranged) {
      EveryArrangementIsDrawn(s, 0, arranged);
    }
  }

  // ----- Every subset is as likely as any other -----

  function Elements(s: seq<nat>): set<nat> {
    set x | x in s
  }

  /** How many ways of drawing the places from `i` to `n` leave exactly `chosen` in the
      first `n`. */
  ghost function Ways(s: seq<nat>, i: nat, n: nat, chosen: set<nat>): nat
    requires i <= n <= |s|
    decreases n - i, |s| + 1
  {
    if i == n then (if Elements(s[..n]) == chosen then 1 else 0) else WaysFrom(s, i, i, n, chosen)
  }

  /** Of those, the ways that draw `j` or a later place for place `i`. */
  ghost function WaysFrom(s: seq<nat>, i: nat, j: nat, n: nat, chosen: set<nat>): nat
    requires i < n <= |s| && i <= j <= |s|
    decreases n - i, |s| - j
  {
    if j == |s| then 0 else Ways(Swap(s, i, j), i + 1, n, chosen) + WaysFrom(s, i, j + 1, n, chosen)
  }

  function Factorial(n: nat): nat {
    if n == 0 then 1 else n * Factorial(n - 1)
  }

  lemma {:induction false} ElementsCount(s: seq<nat>)
    requires Distinct(s)
    ensures |Elements(s)| == |s|
  {
    if s != [] {
      var n := |s| - 1;
      ElementsCount(s[..n]);
      assert s == s[..n] + [s[n]];
      assert Elements(s) == Elements(s[..n]) + {s[n]};
    }
  }

  lemma SwapElements(s: seq<nat>, i: nat, j: nat)
    requires i < |s| && j < |s|
    ensures Elements(Swap(s, i, j)) == Elements(s)
  {
    var t := Swap(s, i, j);
    forall x | x in s ensures x in t {
      var k :| 0 <= k < |s| && s[k] == x;
      assert t[if k == i then j else if k == j then i else k] == x;
    }
  }

  lemma FilledAfterSwap(s: seq<nat>, i: nat, j: nat)
    requires i <= j < |s|
    ensures Elements(Swap(s, i, j)[..i + 1]) == Elements(s[..i]) + {s[j]}
  {
    assert Swap(s, i, j)[..i + 1] == s[..i] + [s[j]];
  }

  /** No way is left once a place holds an element that was not chosen. */
  lemma {:induction false} NoWay(s: seq<nat>, i: nat, n: nat, chosen: set<nat>)
    requires i <= n <= |s| && !(Elements(s[..i]) <= chosen)
    ensures Ways(s, i, n, chosen) == 0
    decreases n - i, |s| + 1
  {
    if i < n {
      NoWayFrom(s, i, i, n, chosen);
    }
  }

  lemma {:induction false} NoWayFrom(s: seq<nat>, i: nat, j: nat, n: nat, chosen: set<nat>)
    requires i < n <= |s| && i <= j <= |s| && !(Elements(s[..i]) <= chosen)
    ensures WaysFrom(s, i, j, n, chosen) == 0
    decreases n - i, |s| - j
  {
    if j < |s| {
      FilledAfterSwap(s, i, j);
      NoWay(Swap(s, i, j), i + 1, n, chosen);
      NoWayFrom(s, i, j + 1, n, chosen);
    }
  }

  /** How many elements from place `j` on were chosen. */
  ghost function ChosenFrom(s: seq<nat>, j: nat, chosen: set<nat>): nat
    requires j <= |s|
    decreases |s| - j
  {
    if j == |s| then 0 else ChosenFrom(s, j + 1, chosen) + if s[j] in chosen then 1 else 0
  }

  lemma OneMoreChosen(chosen: set<nat>, rest: set<nat>, x: nat)
    requires x !in rest
    ensures |chosen * (rest + {x})| == |chosen * rest| + if x in chosen then 1 else 0
  {
    assert chosen * (rest + {x}) == chosen * rest + if x in chosen then {x} else {};
  }

  lemma {:induction false} ChosenFromCount(s: seq<nat>, j: nat, chosen: set<nat>)
    requires Distinct(s) && j <= |s|
    ensures ChosenFrom(s, j, chosen) == |chosen * Elements(s[j..])|
    decreases |s| - j
  {
    if j < |s| {
      ChosenFromCount(s, j + 1, chosen);
      assert s[j..] == [s[j]] + s[j + 1..];
      assert Elements(s[j..]) == Elements(s[j + 1..]) + {s[j]};
      assert s[j] !in Elements(s[j + 1..]);
      OneMoreChosen(chosen, Elements(s[j + 1..]), s[j]);
    }
  }

  lemma TwoParts(s: seq<nat>, i: nat)
    requires Distinct(s) && i <= |s|
    ensures Elements(s) == Elements(s[..i]) + Elements(s[i..])
    ensures Elements(s[..i]) !! Elements(s[i..])
  {
    assert s == s[..i] + s[i..];
  }

  lemma ChosenLeft(s: seq<nat>, i: nat, chosen: set<nat>)
    requires Distinct(s) && i <= |s| && Elements(s[..i]) <= chosen <= Elements(s)
    ensures ChosenFrom(s, i, chosen) == |chosen| - i
  {
    ChosenFromCount(s, i, chosen);
    ElementsCount(s[..i]);
    TwoParts(s, i);
    assert chosen * Elements(s[i..]) == chosen - Elements(s[..i]);
  }

  lemma {:induction false} WaysFromCount(s: seq<nat>, i: nat, j: nat, n: nat, chosen: set<nat>)
    requires Distinct(s) && i < n <= |s| && i <= j <= |s|
    requires |chosen| == n && Elements(s[..i]) <= chosen <= Elements(s)
    ensures WaysFrom(s, i, j, n, chosen) == ChosenFrom(s, j, chosen) * Factorial(n - i - 1)
    decreases n - i, |s| - j
  {
    if j < |s| {
      var t, f := Swap(s, i, j), Factorial(n - i - 1);
      assert Ways(t, i + 1, n, chosen) == if s[j] in chosen then f else 0 by {
        FilledAfterSwap(s, i, j);
        if s[j] in chosen {
          SwapDistinct(s, i, j);
          SwapElements(s, i, j);
          WaysCount(t, i + 1, n, chosen);
        } else {
          NoWay(t, i + 1, n, chosen);
        }
      }
      WaysFromCount(s, i, j + 1, n, chosen);
      MulStep(ChosenFrom(s, j + 1, chosen), f);
    }
  }

  lemma {:induction false} WaysCount(s: seq<nat>, i: nat, n: nat, chosen: set<nat>)
    requires Distinct(s) && i <= n <= |s|
    requires |chosen| == n && Elements(s[..i]) <= chosen <= Elements(s)
    ensures Ways(s, i, n, chosen) == Factorial(n - i)
    decreases n - i, |s| + 1
  {
    if i == n {
      ElementsCount(s[..n]);
      SubsetOfSameSize(Elements(s[..n]), chosen);
    } else {
      WaysFromCount(s, i, i, n, chosen);
      ChosenLeft(s, i, chosen);
    }
  }

  lemma SubsetOfSameSize(a: set<nat>, b: set<nat>)
    requires a <= b && |a| == |b|
    ensures a == b
  {
    assert b == a + (b - a);
  }

  // ----- What the ways are -----

  /** Every list of draws for the places from `i` to `n`. */
  ghost function AllDraws(i: nat, n: nat, m: nat): set<seq<nat>>
    requires i <= n <= m
    decreases n - i, m + 1
  {
    if i == n then {[]} else DrawsFrom(i, i, n, m)
  }

  /** Those whose first draw is `j` or later. */
  ghost function DrawsFrom(i: nat, j: nat, n: nat, m: nat): set<seq<nat>>
    requires i < n <= m && i <= j <= m
    decreases n - i, m - j
  {
    if j == m then {} else Prefixed(j, AllDraws(i + 1, n, m)) + DrawsFrom(i, j + 1, n, m)
  }

  ghost function Prefixed(j: nat, lists: set<seq<nat>>): set<seq<nat>> {
    set js | js in lists :: [j] + js
  }

  lemma PrefixedMembers(j: nat, lists: set<seq<nat>>, js: seq<nat>)
    ensures js in Prefixed(j, lists) <==> js != [] && js[0] == j && js[1..] in lists
  {
    if js != [] && js[0] == j && js[1..] in lists {
      assert js == [j] + js[1..];
    }
    if js in Prefixed(j, lists) {
      var rest :| rest in lists && js == [j] + rest;
      assert js[1..] == rest;
    }
  }

  lemma {:induction false} AllDrawsMembers(i: nat, n: nat, m: nat, js: seq<nat>)
    requires i <= n <= m
    ensures js in AllDraws(i, n, m) <==> |js| == n - i && ValidDraws(js, i, m)
    decreases n - i, m + 1
  {
    if i < n {
      DrawsFromMembers(i, i, n, m, js);
    }
  }

  lemma {:induction false} DrawsFromMembers(i: nat, j: nat, n: nat, m: nat, js: seq<nat>)
    requires i < n <= m && i <= j <= m
    ensures js in DrawsFrom(i, j, n, m) <==> |js| == n - i && ValidDraws(js, i, m) && j <= js[0]
    decreases n - i, m - j
  {
    if j < m {
      PrefixedMembers(j, AllDraws(i + 1, n, m), js);
      DrawsFromMembers(i, j + 1, n, m, js);
      if js != [] {
        AllDrawsMembers(i + 1, n, m, js[1..]);
        DrawsSplit(js, i, m);
      }
    }
  }

  lemma DrawsSplit(js: seq<nat>, i: nat, m: nat)
    requires js != []
    ensures ValidDraws(js, i, m) <==> i <= js[0] < m && ValidDraws(js[1..], i + 1, m)
  {
    if i <= js[0] < m && ValidDraws(js[1..], i + 1, m) {
      forall k | 0 <= k < |js| ensures i + k <= js[k] < m {
        assert 0 < k ==> js[k] == js[1..][k - 1];
      }
    }
  }

  /** The draws leave exactly `chosen` in the first `n` places. */
  ghost predicate Leaves(s: seq<nat>, i: nat, n: nat, chosen: set<nat>, js: seq<nat>) {
    n <= |s| && ValidDraws(js, i, |s|) && Elements(Shuffled(s, i, js)[..n]) == chosen
  }

  ghost function Leaving(s: seq<nat>, i: nat, n: nat, chosen: set<nat>, lists: set<seq<nat>>): set<seq<nat>> {
    set js | js in lists && Leaves(s, i, n, chosen, js)
  }

  lemma LeavesAfter(s: seq<nat>, i: nat, n: nat, chosen: set<nat>, j: nat, rest: seq<nat>)
    requires i <= j < |s|
    ensures Leaves(s, i, n, chosen, [j] + rest) <==> Leaves(Swap(s, i, j), i + 1, n, chosen, rest)
  {
    var js := [j] + rest;
    assert js[1..] == rest;
    DrawsSplit(js, i, |s|);
  }

  lemma LeavingPrefixed(s: seq<nat>, i: nat, n: nat, chosen: set<nat>, j: nat, lists: set<seq<nat>>)
    requires i <= j < |s|
    ensures Leaving(s, i, n, chosen, Prefixed(j, lists)) == Prefixed(j, Leaving(Swap(s, i, j), i + 1, n, chosen, lists))
  {
    var after := Leaving(Swap(s, i, j), i + 1, n, chosen, lists);
    forall js ensures js in Leaving(s, i, n, chosen, Prefixed(j, lists)) <==> js in Prefixed(j, after) {
      PrefixedMembers(j, lists, js);
      PrefixedMembers(j, after, js);
      if js != [] && js[0] == j {
        assert js == [j] + js[1..];
        LeavesAfter(s, i, n, chosen, j, js[1..]);
      }
    }
  }

  lemma {:induction false} PrefixedCount(j: nat, lists: set<seq<nat>>)
    ensures |Prefixed(j, lists)| == |lists|
    decreases |lists|
  {
    if lists != {} {
      var js :| js in lists;
      var rest := lists - {js};
      PrefixedCount(j, rest);
      assert [j] + js !in Prefixed(j, rest) by {
        PrefixedMembers(j, rest, [j] + js);
        assert ([j] + js)[1..] == js;
      }
      assert Prefixed(j, lists) == Prefixed(j, rest) + {[j] + js};
    }
  }

  lemma {:induction false} WaysAreDraws(s: seq<nat>, i: nat, n: nat, chosen: set<nat>)
    requires i <= n <= |s|
    ensures Ways(s, i, n, chosen) == |Leaving(s, i, n, chosen, AllDraws(i, n, |s|))|
    decreases n - i, |s| + 1
  {
    if i == n {
      assert Leaving(s, i, n, chosen, {[]}) == if Elements(s[..n]) == chosen then {[]} else {};
    } else {
      WaysFromAreDraws(s, i, i, n, chosen);
    }
  }

  lemma {:induction false} WaysFromAreDraws(s: seq<nat>, i: nat, j: nat, n: nat, chosen: set<nat>)
    requires i < n <= |s| && i <= j <= |s|
    ensures WaysFrom(s, i, j, n, chosen) == |Leaving(s, i, n, chosen, DrawsFrom(i, j, n, |s|))|
    decreases n - i, |s| - j
  {
    if j == |s| {
      assert Leaving(s, i, n, chosen, {}) == {};
    } else {
      var first, later := Prefixed(j, AllDraws(i + 1, n, |s|)), DrawsFrom(i, j + 1, n, |s|);
      WaysAreDraws(Swap(s, i, j), i + 1, n, chosen);
      LeavingPrefixed(s, i, n, chosen, j, AllDraws(i + 1, n, |s|));
      PrefixedCount(j, Leaving(Swap(s, i, j), i + 1, n, chosen, AllDraws(i + 1, n, |s|)));
      WaysFromAreDraws(s, i, j + 1, n, chosen);
      forall js | js in first ensures js !in later {
        PrefixedMembers(j, AllDraws(i + 1, n, |s|), js);
        DrawsFromMembers(i, j + 1, n, |s|, js);
      }
      LeavingSum(s, i, n, chosen, first, later);
    }
  }

  lemma LeavingSum(s: seq<nat>, i: nat, n: nat, chosen: set<nat>, a: set<seq<nat>>, b: set<seq<nat>>)
    requires a !! b
    ensures |Leaving(s, i, n, chosen, a + b)| == |Leaving(s, i, n, chosen, a)| + |Leaving(s, i, n, chosen, b)|
  {
    assert Leaving(s, i, n, chosen, a + b) == Leaving(s, i, n, chosen, a) + Leaving(s, i, n, chosen, b);
  }

  /** The draws of `n` places that leave exactly `chosen` in them. */
  ghost function DrawsLeaving(s: seq<nat>, n: nat, chosen: set<nat>): set<seq<nat>>
    requires n <= |s|
  {
    Leaving(s, 0, n, chosen, AllDraws(0, n, |s|))
  }

  lemma DrawsLeavingMembers(s: seq<nat>, n: nat, chosen: set<nat>, js: seq<nat>)
    requires n <= |s|
    ensures js in DrawsLeaving(s, n, chosen) <==>
              |js| == n && ValidDraws(js, 0, |s|) && Elements(Shuffled(s, 0, js)[..n]) == chosen
  {
    AllDrawsMembers(0, n, |s|, js);
  }

  /** Every subset of `n` of a class's indices is left by as many lists of draws as any
      other: one for each order of its elements. */
  lemma EverySubsetEquallyLikely(s: seq<nat>, n: nat, chosen: set<nat>)
    requires Distinct(s) && n <= |s| && |chosen| == n && chosen <= Elements(s)
    ensures |DrawsLeaving(s, n, chosen)| == Factorial(n)
  {
    WaysCount(s, 0, n, chosen);
    WaysAreDraws(s, 0, n, chosen);
  }
}
