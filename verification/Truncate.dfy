/** Bounding text for a report: a cut that never splits a character, and a list of names
    cut between elements that says how many it dropped.  Text is UTF-8, as RFC 3629
    defines it. */
module Truncate {
  import opened Common

  type Byte = x: int | 0 <= x < 256

  // ----- UTF-8 (RFC 3629, sections 3 and 4) -----

  predicate Tail(b: Byte) {
    0x80 <= b <= 0xBF
  }

  /** A byte at which a character can begin. */
  predicate RuneStart(b: Byte) {
    !Tail(b)
  }

  /** The range of the byte after a character's first. */
  predicate SecondOk(first: Byte, second: Byte) {
    if first == 0xE0 then 0xA0 <= second <= 0xBF
    else if first == 0xED then 0x80 <= second <= 0x9F
    else if first == 0xF0 then 0x90 <= second <= 0xBF
    else if first == 0xF4 then 0x80 <= second <= 0x8F
    else Tail(second)
  }

  /** How many bytes a character with this first byte has; none starts with the others. */
  function Width(first: Byte): nat {
    if first <= 0x7F then 1
    else if 0xC2 <= first <= 0xDF then 2
    else if 0xE0 <= first <= 0xEF then 3
    else if 0xF0 <= first <= 0xF4 then 4
    else 0
  }

  /** A character begins at the front of `s`. */
  predicate CharFirst(s: seq<Byte>) {
    && s != []
    && var w := Width(s[0]);
       && 0 < w <= |s|
       && (1 < w ==> SecondOk(s[0], s[1]))
       && (2 < w ==> Tail(s[2]))
       && (3 < w ==> Tail(s[3]))
  }

  predicate Utf8(s: seq<Byte>) {
    s == [] || (CharFirst(s) && Utf8(s[Width(s[0])..]))
  }

  /** The characters there are: every number up to 0x10FFFF but the surrogates. */
  predicate Scalar(c: int) {
    0 <= c <= 0x10FFFF && !(0xD800 <= c <= 0xDFFF)
  }

  /** A character's bytes: its bits, six to a byte after the first. */
  function Encoded(c: int): seq<Byte>
    requires Scalar(c)
  {
    if c < 0x80 then [c]
    else if c < 0x800 then [0xC0 + c / 0x40, 0x80 + c % 0x40]
    else if c < 0x1_0000 then [0xE0 + c / 0x1000, 0x80 + c / 0x40 % 0x40, 0x80 + c % 0x40]
    else [0xF0 + c / 0x4_0000, 0x80 + c / 0x1000 % 0x40, 0x80 + c / 0x40 % 0x40, 0x80 + c % 0x40]
  }

  /** Every character's bytes are one character. */
  lemma EncodedIsChar(c: int)
    requires Scalar(c)
    ensures CharFirst(Encoded(c)) && Width(Encoded(c)[0]) == |Encoded(c)|
  {
  }

  /** The number whose bits those bytes hold. */
  function CodeOf(s: seq<Byte>): int
    requires CharFirst(s)
  {
    var first: int := s[0];
    match Width(s[0])
    case 1 => first
    case 2 => (first - 0xC0) * 0x40 + Low(s[1])
    case 3 => (first - 0xE0) * 0x1000 + Low(s[1]) * 0x40 + Low(s[2])
    case _ => (first - 0xF0) * 0x4_0000 + Low(s[1]) * 0x1000 + Low(s[2]) * 0x40 + Low(s[3])
  }

  /** The six bits a byte after the first holds. */
  function Low(b: Byte): int {
    b as int - 0x80
  }

  /** Six bits, and what is before them. */
  lemma SixBits(a: nat, b: nat)
    requires b < 0x40
    ensures (a * 0x40 + b) / 0x40 == a && (a * 0x40 + b) % 0x40 == b
  {
  }

  lemma ThreeBytes(a: nat, b: nat, c: nat)
    requires b < 0x40 && c < 0x40
    ensures var n := a * 0x1000 + b * 0x40 + c;
            n % 0x40 == c && n / 0x40 == a * 0x40 + b && n / 0x40 % 0x40 == b && n / 0x1000 == a
  {
    SixBits(a * 0x40 + b, c);
    SixBits(a, b);
    assert a * 0x1000 + b * 0x40 + c == (a * 0x40 + b) * 0x40 + c;
  }

  lemma FourBytes(a: nat, b: nat, c: nat, d: nat)
    requires b < 0x40 && c < 0x40 && d < 0x40
    ensures var n := a * 0x4_0000 + b * 0x1000 + c * 0x40 + d;
            && n % 0x40 == d && n / 0x40 % 0x40 == c && n / 0x1000 % 0x40 == b && n / 0x4_0000 == a
  {
    ThreeBytes(a * 0x40 + b, c, d);
    SixBits(a, b);
    assert a * 0x4_0000 + b * 0x1000 + c * 0x40 + d == (a * 0x40 + b) * 0x1000 + c * 0x40 + d;
  }

  /** And every front of a text taken for a character is some character's bytes. */
  lemma CharIsEncoded(s: seq<Byte>)
    requires CharFirst(s)
    ensures Scalar(CodeOf(s)) && Encoded(CodeOf(s)) == s[..Width(s[0])]
  {
    match Width(s[0])
    case 1 =>
    case 2 => SixBits(s[0] as int - 0xC0, Low(s[1]));
    case 3 => ThreeBytes(s[0] as int - 0xE0, Low(s[1]), Low(s[2]));
    case _ => FourBytes(s[0] as int - 0xF0, Low(s[1]), Low(s[2]), Low(s[3]));
  }

  /** The places a valid text can be cut at are its end and the starts of its characters. */
  lemma {:induction false} CutAtStarts(s: seq<Byte>, k: nat)
    requires Utf8(s) && k <= |s|
    ensures Utf8(s[..k]) <==> k == |s| || RuneStart(s[k])
  {
    if k == |s| {
      assert s[..k] == s;
    } else if 0 < k {
      var w := Width(s[0]);
      if k < w {
        assert !CharFirst(s[..k]);
      } else {
        CutAtStarts(s[w..], k - w);
        assert s[..k][w..] == s[w..][..k - w];
        assert CharFirst(s[..k]);
      }
    }
  }

  /** What follows a character does not change it. */
  lemma FirstStays(a: seq<Byte>, b: seq<Byte>)
    requires CharFirst(a)
    ensures CharFirst(a + b) && Width((a + b)[0]) == Width(a[0])
  {
  }

  lemma OneMoreFirst(s: seq<Byte>, rest: seq<Byte>)
    requires CharFirst(s) && s[Width(s[0])..] == rest && Utf8(rest)
    ensures Utf8(s)
  {
  }

  lemma {:induction false} Utf8Concat(a: seq<Byte>, b: seq<Byte>)
    requires Utf8(a) && Utf8(b)
    ensures Utf8(a + b)
    decreases |a|
  {
    if a == [] {
      assert a + b == b;
    } else {
      var w := Width(a[0]);
      FirstStays(a, b);
      var rest := a[w..];
      assert (a + b)[w..] == rest + b;
      Utf8Concat(rest, b);
      OneMoreFirst(a + b, rest + b);
    }
  }

  // ----- Cutting text -----

  /** Where a text is cut: back from `n` to the start of a character. */
  function CutAt(s: seq<Byte>, n: nat): (k: nat)
    requires n < |s|
    ensures k <= n
  {
    if n == 0 || RuneStart(s[n]) then n else CutAt(s, n - 1)
  }

  function Cut(s: seq<Byte>, maxBytes: int): (r: seq<Byte>)
    ensures |r| <= Max(maxBytes, 0) && r <= s
  {
    if maxBytes <= 0 then [] else if |s| <= maxBytes then s else s[..CutAt(s, maxBytes)]
  }

  method TruncateUtf8(s: seq<Byte>, maxBytes: int) returns (r: seq<Byte>)
    ensures r == Cut(s, maxBytes)
  {
    if maxBytes <= 0 {
      return [];
    }
    if |s| <= maxBytes {
      return s;
    }
    var n := maxBytes;
    while 0 < n && !RuneStart(s[n])
      invariant 0 <= n <= maxBytes
      invariant CutAt(s, maxBytes) == CutAt(s, n)
    {
      n := n - 1;
    }
    return s[..n];
  }

  lemma {:induction false} CutSkipsTails(s: seq<Byte>, n: nat, k: nat)
    requires n < |s| && CutAt(s, n) < k <= n
    ensures Tail(s[k])
  {
    if k < n {
      CutSkipsTails(s, n - 1, k);
    }
  }

  /** Of a valid text, what is kept is its longest valid prefix within the bound. */
  lemma CutIsLongest(s: seq<Byte>, maxBytes: int)
    requires Utf8(s)
    ensures var r := Cut(s, maxBytes);
            && Utf8(r) && r <= s && |r| <= Max(maxBytes, 0)
            && forall k :: |r| < k <= |s| && k <= maxBytes ==> !Utf8(s[..k])
  {
    var r := Cut(s, maxBytes);
    if 0 < maxBytes < |s| {
      var n := CutAt(s, maxBytes);
      CutStarts(s, maxBytes);
      CutAtStarts(s, n);
      forall k | n < k <= maxBytes ensures !Utf8(s[..k]) {
        CutSkipsTails(s, maxBytes, k);
        CutAtStarts(s, k);
      }
    }
  }

  lemma {:induction false} CutStarts(s: seq<Byte>, n: nat)
    requires n < |s| && Utf8(s)
    ensures RuneStart(s[CutAt(s, n)])
  {
    if 0 < n && !RuneStart(s[n]) {
      CutStarts(s, n - 1);
    }
  }

  // ----- Cutting a list of names -----

  const COMMA: Byte := 0x2C

  function Join(names: seq<seq<Byte>>): seq<Byte> {
    if names == [] then []
    else if |names| == 1 then names[0]
    else Join(names[..|names| - 1]) + [COMMA] + names[|names| - 1]
  }

  function Decimal(n: nat): (d: seq<Byte>)
    ensures d != []
  {
    if n < 10 then [0x30 + n] else Decimal(n / 10) + [0x30 + n % 10]
  }

  const ELLIPSIS: seq<Byte> := [0xE2, 0x80, 0xA6]
  const PLUS: seq<Byte> := [0x2B]
  const MORE: seq<Byte> := [0x20, 0x6D, 0x6F, 0x72, 0x65]

  /** The mark of a partial list: how many names it lacks. */
  function Marker(n: nat): seq<Byte> {
    ELLIPSIS + PLUS + Decimal(n) + MORE
  }

  /** The room left for the mark: that of one with three digits. */
  const MARKER_ROOM := 12

  /** The number a numeral denotes. */
  function Value(d: seq<Byte>): int {
    if d == [] then 0 else 10 * Value(d[..|d| - 1]) + d[|d| - 1] - 0x30
  }

  /** A number's numeral consists of digits and denotes it, so the mark reports exactly the
      number dropped. */
  lemma {:induction false} DecimalDenotes(n: nat)
    ensures Value(Decimal(n)) == n
    ensures forall i :: 0 <= i < |Decimal(n)| ==> 0x30 <= Decimal(n)[i] <= 0x39
  {
    if 10 <= n {
      DecimalDenotes(n / 10);
      assert Decimal(n)[..|Decimal(n)| - 1] == Decimal(n / 10);
    } else {
      assert [0x30 + n][..0] == [];
    }
  }

  lemma MarksDiffer(m: nat, n: nat)
    requires Marker(m) == Marker(n)
    ensures m == n
  {
    DecimalDenotes(m);
    DecimalDenotes(n);
    assert Marker(m)[4..4 + |Decimal(m)|] == Decimal(m);
    assert Marker(n)[4..4 + |Decimal(n)|] == Decimal(n);
  }

  lemma {:induction false} DecimalWidth(n: nat)
    ensures |Decimal(n)| <= 3 <==> n <= 999
    ensures n < 1000 ==> |Decimal(n)| == if n < 10 then 1 else if n < 100 then 2 else 3
  {
    if 10 <= n {
      DecimalWidth(n / 10);
    }
  }

  lemma MarkerFits(n: nat)
    ensures |Marker(n)| <= MARKER_ROOM <==> n <= 999
  {
    DecimalWidth(n);
  }

  /** How many names are kept: `k` of them are, and the rest as far as the bytes go. */
  function KeptFrom(names: seq<seq<Byte>>, room: int, k: nat): (kept: nat)
    requires k <= |names|
    ensures k <= kept <= |names|
    decreases |names| - k
  {
    if k == |names| || room < |Join(names[..k + 1])| then k else KeptFrom(names, room, k + 1)
  }

  function Kept(names: seq<seq<Byte>>, maxBytes: int): nat {
    KeptFrom(names, maxBytes - MARKER_ROOM, 0)
  }

  function Shortened(names: seq<seq<Byte>>, maxBytes: int): seq<Byte> {
    var kept := Kept(names, maxBytes);
    if |Join(names)| <= maxBytes then Join(names)
    else if kept == 0 then Cut(Join(names), maxBytes - MARKER_ROOM) + Marker(|names|)
    else Join(names[..kept]) + Marker(|names| - kept)
  }

  lemma JoinNext(names: seq<seq<Byte>>, k: nat)
    requires k < |names|
    ensures |Join(names[..k + 1])| == |Join(names[..k])| + |names[k]| + if 0 < k then 1 else 0
  {
    assert names[..k + 1][..k] == names[..k];
  }

  method TruncateNameList(names: seq<seq<Byte>>, maxBytes: int) returns (r: seq<Byte>)
    ensures r == Shortened(names, maxBytes)
  {
    var joined := Join(names);
    if |joined| <= maxBytes {
      return joined;
    }
    var kept, used := 0, 0;
    while kept < |names|
      invariant 0 <= kept <= |names| && used == |Join(names[..kept])|
      invariant Kept(names, maxBytes) == KeptFrom(names, maxBytes - MARKER_ROOM, kept)
    {
      var width := |names[kept]|;
      if 0 < kept {
        width := width + 1;
      }
      JoinNext(names, kept);
      if maxBytes - MARKER_ROOM < used + width {
        break;
      }
      used := used + width;
      kept := kept + 1;
    }
    if kept == 0 {
      var first := TruncateUtf8(joined, maxBytes - MARKER_ROOM);
      return first + Marker(|names|);
    }
    return Join(names[..kept]) + Marker(|names| - kept);
  }

  lemma {:induction false} JoinGrows(names: seq<seq<Byte>>, j: nat, k: nat)
    requires j <= k <= |names|
    ensures |Join(names[..j])| <= |Join(names[..k])|
  {
    if j < k {
      JoinGrows(names, j, k - 1);
      JoinNext(names, k - 1);
    }
  }

  lemma {:induction false} KeptMeaning(names: seq<seq<Byte>>, room: int, k: nat)
    requires k <= |names| && (0 < k ==> |Join(names[..k])| <= room)
    ensures var kept := KeptFrom(names, room, k);
            && (0 < kept ==> |Join(names[..kept])| <= room)
            && (kept < |names| ==> room < |Join(names[..kept + 1])|)
    decreases |names| - k
  {
    if k < |names| && |Join(names[..k + 1])| <= room {
      KeptMeaning(names, room, k + 1);
    }
  }

  /** What is kept of a list that is too long is the longest run of whole names, from its
      start, that leaves room for the mark; and some name is always dropped. */
  lemma KeptIsLongest(names: seq<seq<Byte>>, maxBytes: int)
    requires maxBytes < |Join(names)| && names != []
    ensures var kept := Kept(names, maxBytes);
            && kept < |names|
            && (0 < kept ==> |Join(names[..kept])| <= maxBytes - MARKER_ROOM)
            && forall j :: kept < j <= |names| ==> maxBytes - MARKER_ROOM < |Join(names[..j])|
  {
    var kept := Kept(names, maxBytes);
    KeptMeaning(names, maxBytes - MARKER_ROOM, 0);
    assert names[..|names|] == names;
    forall j | kept < j <= |names| ensures maxBytes - MARKER_ROOM < |Join(names[..j])| {
      JoinGrows(names, kept + 1, j);
    }
  }

  /** The first `k` names joined fit the room, and no more of them do. */
  ghost predicate IsLongestRun(names: seq<seq<Byte>>, k: int, room: int) {
    && 0 < k < |names| && |Join(names[..k])| <= room
    && forall j :: k < j <= |names| ==> room < |Join(names[..j])|
  }

  lemma KeptIsRun(names: seq<seq<Byte>>, maxBytes: int)
    requires maxBytes < |Join(names)| && names != [] && |names[0]| <= maxBytes - MARKER_ROOM
    ensures IsLongestRun(names, Kept(names, maxBytes), maxBytes - MARKER_ROOM)
  {
    KeptIsLongest(names, maxBytes);
    assert names[..1] == [names[0]];
  }

  /** Of a list that is too long, whose first name leaves room for the mark, the longest run of
      whole names that does is kept, and the mark says how many follow it. */
  lemma MarkCountsTheDropped(names: seq<seq<Byte>>, maxBytes: int)
    requires maxBytes < |Join(names)| && names != [] && |names[0]| <= maxBytes - MARKER_ROOM
    ensures exists k: nat :: IsLongestRun(names, k, maxBytes - MARKER_ROOM)
                             && Shortened(names, maxBytes) == Join(names[..k]) + Marker(|names| - k)
  {
    KeptIsRun(names, maxBytes);
    ShortenedToRun(names, maxBytes);
  }

  lemma ShortenedToRun(names: seq<seq<Byte>>, maxBytes: int)
    requires maxBytes < |Join(names)| && 0 < Kept(names, maxBytes)
    ensures var k := Kept(names, maxBytes);
            Shortened(names, maxBytes) == Join(names[..k]) + Marker(|names| - k)
  {
  }

  /** If it leaves none, a part of it is kept, and the mark counts every name. */
  lemma MarkCountsThemAll(names: seq<seq<Byte>>, maxBytes: int)
    requires maxBytes < |Join(names)| && names != [] && maxBytes - MARKER_ROOM < |names[0]|
    ensures exists t :: t <= names[0] && |t| <= Max(maxBytes - MARKER_ROOM, 0)
                        && Shortened(names, maxBytes) == t + Marker(|names|)
  {
    assert names[..1] == [names[0]];
    assert Kept(names, maxBytes) == 0;
    PartOfFirstName(names, maxBytes);
    var t := Cut(Join(names), maxBytes - MARKER_ROOM);
    assert Shortened(names, maxBytes) == t + Marker(|names|);
  }

  /** With room for a mark of three digits, and no more names than three digits count,
      the list stays within its bound. */
  lemma StaysWithin(names: seq<seq<Byte>>, maxBytes: int)
    requires MARKER_ROOM <= maxBytes && |names| <= 999
    ensures |Shortened(names, maxBytes)| <= maxBytes
  {
    if maxBytes < |Join(names)| {
      KeptIsLongest(names, maxBytes);
      MarkerFits(|names| - Kept(names, maxBytes));
    }
  }

  /** With less room than that a list too long becomes the bare mark, so the list is within
      its bound exactly if it is whole or the mark happens to be that short. */
  lemma BareMark(names: seq<seq<Byte>>, maxBytes: int)
    requires maxBytes < MARKER_ROOM
    ensures maxBytes < |Join(names)| ==> Shortened(names, maxBytes) == Marker(|names|)
    ensures |Shortened(names, maxBytes)| <= maxBytes <==>
              |Join(names)| <= maxBytes || 9 + |Decimal(|names|)| <= maxBytes
  {
    assert Kept(names, maxBytes) == 0;
    assert [] + Marker(|names|) == Marker(|names|);
  }

  ghost predicate AlwaysFits(n: nat, maxBytes: int) {
    forall names :: |names| == n ==> |Shortened(names, maxBytes)| <= maxBytes
  }

  /** A list of `n` names none of which leaves room for the mark: the first is a letter
      too long, and the others are empty. */
  function Awkward(n: nat, maxBytes: int): (names: seq<seq<Byte>>)
    requires MARKER_ROOM <= maxBytes
    ensures |names| == n
  {
    seq(n, i => if i == 0 then Letters(maxBytes - MARKER_ROOM + 1) else [])
  }

  function Letters(n: nat): (s: seq<Byte>)
    ensures |s| == n && forall i :: 0 <= i < n ==> s[i] == 0x61
  {
    seq(n, i => 0x61)
  }

  lemma {:induction false} LongJoin(names: seq<seq<Byte>>, k: nat)
    requires 0 < k <= |names|
    ensures |names[0]| + k - 1 <= |Join(names[..k])|
  {
    if 1 < k {
      LongJoin(names, k - 1);
      JoinNext(names, k - 1);
    } else {
      assert names[..1] == [names[0]];
    }
  }

  /** A thousand names and more, the first of them a letter longer than the room beside
      the mark, overrun the bound: that room is filled, and the mark has four digits. */
  lemma ThousandNamesOverrun(names: seq<seq<Byte>>, maxBytes: int)
    requires MARKER_ROOM <= maxBytes && 1000 <= |names|
    requires names[0] == Letters(maxBytes - MARKER_ROOM + 1)
    ensures maxBytes < |Shortened(names, maxBytes)|
  {
    var room, joined := maxBytes - MARKER_ROOM, Join(names);
    LongJoin(names, |names|);
    assert names[..|names|] == names && names[..1] == [names[0]];
    assert Kept(names, maxBytes) == 0;
    FirstInJoin(names);
    assert 0 < room ==> RuneStart(joined[room]) by {
      assert 0 < room ==> joined[room] == names[0][room];
    }
    MarkerFits(|names|);
  }

  /** From the room of a mark on, every list of so many names stays within its bound
      exactly if there are no more than three digits count. */
  lemma StaysWithinExactly(n: nat, maxBytes: int)
    requires MARKER_ROOM <= maxBytes
    ensures AlwaysFits(n, maxBytes) <==> n <= 999
  {
    if n <= 999 {
      forall names | |names| == n ensures |Shortened(names, maxBytes)| <= maxBytes {
        StaysWithin(names, maxBytes);
      }
    } else {
      ThousandNamesOverrun(Awkward(n, maxBytes), maxBytes);
    }
  }

  // ----- Names stay names -----

  lemma {:induction false} JoinUtf8(names: seq<seq<Byte>>)
    requires forall i :: 0 <= i < |names| ==> Utf8(names[i])
    ensures Utf8(Join(names))
  {
    if 1 < |names| {
      var n := |names| - 1;
      JoinUtf8(names[..n]);
      Utf8Concat(Join(names[..n]), [COMMA]);
      Utf8Concat(Join(names[..n]) + [COMMA], names[n]);
    }
  }

  ghost predicate Ascii(s: seq<Byte>) {
    forall i :: 0 <= i < |s| ==> s[i] < 0x80
  }

  lemma {:induction false} AsciiUtf8(s: seq<Byte>)
    requires Ascii(s)
    ensures Utf8(s)
  {
    if s != [] {
      AsciiUtf8(s[1..]);
    }
  }

  lemma {:induction false} DecimalAscii(n: nat)
    ensures Ascii(Decimal(n))
  {
    if 10 <= n {
      DecimalAscii(n / 10);
    }
  }

  lemma MarkerUtf8(n: nat)
    ensures Utf8(Marker(n))
  {
    assert Utf8(ELLIPSIS) by { assert ELLIPSIS[3..] == []; }
    DecimalAscii(n);
    AsciiUtf8(PLUS + Decimal(n) + MORE);
    Utf8Concat(ELLIPSIS, PLUS + Decimal(n) + MORE);
    assert Marker(n) == ELLIPSIS + (PLUS + Decimal(n) + MORE);
  }

  /** A list of valid names, cut or not, is valid text. */
  lemma ShortenedIsText(names: seq<seq<Byte>>, maxBytes: int)
    requires forall i :: 0 <= i < |names| ==> Utf8(names[i])
    ensures Utf8(Shortened(names, maxBytes))
  {
    var kept := Kept(names, maxBytes);
    JoinUtf8(names);
    if kept == 0 {
      MarkerUtf8(|names|);
      CutIsLongest(Join(names), maxBytes - MARKER_ROOM);
      Utf8Concat(Cut(Join(names), maxBytes - MARKER_ROOM), Marker(|names|));
    } else {
      JoinUtf8(names[..kept]);
      MarkerUtf8(|names| - kept);
      Utf8Concat(Join(names[..kept]), Marker(|names| - kept));
    }
  }

  /** When not even the first name fits, what is kept is a part of that name alone. */
  lemma PartOfFirstName(names: seq<seq<Byte>>, maxBytes: int)
    requires maxBytes < |Join(names)| && names != [] && Kept(names, maxBytes) == 0
    ensures Cut(Join(names), maxBytes - MARKER_ROOM) <= names[0]
  {
    KeptIsLongest(names, maxBytes);
    FirstInJoin(names);
    assert names[..1] == [names[0]];
  }

  lemma {:induction false} FirstInJoin(names: seq<seq<Byte>>)
    requires names != []
    ensures names[0] <= Join(names)
  {
    if 1 < |names| {
      FirstInJoin(names[..|names| - 1]);
    }
  }
}
