/** The few string operations the Go code relies on. */
module Text {
  predicate HasPrefix(s: string, prefix: string) {
    prefix <= s
  }

  predicate HasSuffix(s: string, suffix: string) {
    |suffix| <= |s| && s[|s| - |suffix|..] == suffix
  }

  function TrimPrefix(s: string, prefix: string): string {
    if HasPrefix(s, prefix) then s[|prefix|..] else s
  }

  function TrimSuffix(s: string, suffix: string): string {
    if HasSuffix(s, suffix) then s[..|s| - |suffix|] else s
  }

  function IndexFrom(s: string, sep: char, from: nat): (i: nat)
    requires from <= |s|
    ensures from <= i <= |s| && (i < |s| ==> s[i] == sep)
    ensures forall k | from <= k < i :: s[k] != sep
    decreases |s| - from
  {
    if from == |s| || s[from] == sep then from else IndexFrom(s, sep, from + 1)
  }

  /** Where the first separator is, or the length. */
  function Index(s: string, sep: char): (i: nat)
    ensures i <= |s| && (i < |s| ==> s[i] == sep)
    ensures forall k | 0 <= k < i :: s[k] != sep
  {
    IndexFrom(s, sep, 0)
  }

  function Split(s: string, sep: char): (parts: seq<string>)
    ensures |parts| >= 1
  {
    var i := Index(s, sep);
    if i == |s| then [s] else [s[..i]] + Split(s[i + 1..], sep)
  }

  lemma SplitWhole(s: string, sep: char)
    requires sep !in s
    ensures Split(s, sep) == [s]
  {
  }

  lemma SplitFirst(first: string, sep: char, rest: string)
    requires sep !in first
    ensures Split(first + [sep] + rest, sep) == [first] + Split(rest, sep)
  {
    var s := first + [sep] + rest;
    var i := Index(s, sep);
    assert s[|first|] == sep;
    assert forall k | 0 <= k < |first| :: s[k] == first[k] && s[k] != sep;
    assert forall k | 0 <= k < i :: s[k] == s[..i][k];
    assert i == |first|;
    assert s[..i] == first && s[i + 1..] == rest;
  }

  /** The order of bytes, then of lengths: how directory listings and sorted strings are ordered. */
  predicate Less(a: string, b: string) {
    b != [] && (a == [] || a[0] < b[0] || (a[0] == b[0] && Less(a[1..], b[1..])))
  }

  lemma {:induction false} LessIsTotal(a: string, b: string)
    ensures Less(a, b) || a == b || Less(b, a)
    ensures !(Less(a, b) && Less(b, a)) && !Less(a, a)
  {
    if a != [] && b != [] {
      LessIsTotal(a[1..], b[1..]);
      assert a == [a[0]] + a[1..] && b == [b[0]] + b[1..];
    }
    if a != [] {
      LessIsTotal(a[1..], a[1..]);
    }
  }

  lemma {:induction false} LessIsTransitive(a: string, b: string, c: string)
    requires Less(a, b) && Less(b, c)
    ensures Less(a, c)
  {
    if a != [] && a[0] == b[0] && b[0] == c[0] {
      LessIsTransitive(a[1..], b[1..], c[1..]);
    }
  }

  lemma {:induction false} LessAfterPrefix(prefix: string, a: string, b: string)
    ensures Less(prefix + a, prefix + b) <==> Less(a, b)
  {
    if prefix == [] {
      assert prefix + a == a && prefix + b == b;
    } else {
      LessAfterPrefix(prefix[1..], a, b);
      assert (prefix + a)[1..] == prefix[1..] + a && (prefix + b)[1..] == prefix[1..] + b;
    }
  }

  predicate IsDigit(c: char) {
    '0' <= c <= '9'
  }

  predicate AllDigits(s: string) {
    forall i {:trigger IsDigit(s[i])} | 0 <= i < |s| :: IsDigit(s[i])
  }

  function Digit(n: nat): (c: char)
    requires n < 10
    ensures IsDigit(c)
  {
    '0' + n as char
  }

  function Number(s: string): nat
    requires AllDigits(s)
  {
    if s == [] then 0
    else
      assert IsDigit(s[|s| - 1]);
      assert AllDigits(s[..|s| - 1]) by {
        assert forall i | 0 <= i < |s| - 1 :: IsDigit(s[i]);
      }
      Number(s[..|s| - 1]) * 10 + (s[|s| - 1] - '0') as nat
  }

  /** The last `width` decimal digits of n, with leading zeros. */
  function Padded(n: nat, width: nat): (s: string)
    ensures |s| == width && AllDigits(s)
  {
    if width == 0 then [] else Padded(n / 10, width - 1) + [Digit(n % 10)]
  }

  function Power10(width: nat): (p: nat)
    ensures p > 0
  {
    if width == 0 then 1 else 10 * Power10(width - 1)
  }

  lemma {:induction false} NumberOfPadded(n: nat, width: nat)
    requires n < Power10(width)
    ensures Number(Padded(n, width)) == n
  {
    if width > 0 {
      NumberOfPadded(n / 10, width - 1);
      var s := Padded(n, width);
      assert s[..|s| - 1] == Padded(n / 10, width - 1);
    }
  }

  /** And the digits of a number are those it was read from. */
  lemma {:induction false} PaddedOfNumber(s: string)
    requires AllDigits(s)
    ensures Padded(Number(s), |s|) == s && Number(s) < Power10(|s|)
  {
    if s != [] {
      var front, last := s[..|s| - 1], s[|s| - 1];
      assert IsDigit(last);
      assert forall i | 0 <= i < |front| :: front[i] == s[i];
      PaddedOfNumber(front);
      assert Number(s) / 10 == Number(front) && Number(s) % 10 == (last - '0') as nat;
      assert front + [last] == s;
    }
  }

  lemma PaddedOfTriple(s: string, width: nat)
    requires |s| == width + 4 && AllDigits(s)
    ensures AllDigits(s[..width]) && AllDigits(s[width..width + 2]) && AllDigits(s[width + 2..])
    ensures PaddedTriple((Number(s[..width]), Number(s[width..width + 2]), Number(s[width + 2..])), width) == s
  {
    var x, y, z := s[..width], s[width..width + 2], s[width + 2..];
    assert forall i | 0 <= i < |s| :: IsDigit(s[i]);
    PaddedOfNumber(x);
    PaddedOfNumber(y);
    PaddedOfNumber(z);
    assert x + (y + z) == s;
  }

  /** Numbers padded to one width are ordered like the numbers, and what follows decides between equal ones. */
  lemma {:induction false} PaddedOrder(a: nat, x: string, b: nat, y: string, width: nat)
    requires a < Power10(width) && b < Power10(width)
    ensures Less(Padded(a, width) + x, Padded(b, width) + y) <==> a < b || (a == b && Less(x, y))
    decreases width
  {
    if width == 0 {
      assert Padded(a, width) + x == x && Padded(b, width) + y == y;
    } else {
      var p, q := [Digit(a % 10)] + x, [Digit(b % 10)] + y;
      PaddedOrder(a / 10, p, b / 10, q, width - 1);
      assert Padded(a, width) + x == Padded(a / 10, width - 1) + p;
      assert Padded(b, width) + y == Padded(b / 10, width - 1) + q;
      assert p[1..] == x && q[1..] == y;
    }
  }

  lemma TrimmedBothEnds(prefix: string, body: string, suffix: string)
    ensures HasPrefix(prefix + (body + suffix), prefix) && HasSuffix(prefix + (body + suffix), suffix)
    ensures TrimSuffix(TrimPrefix(prefix + (body + suffix), prefix), suffix) == body
  {
    var s := prefix + (body + suffix);
    assert s == (prefix + body) + suffix;
    assert s[|prefix|..] == body + suffix;
  }

  predicate LessTriple(a: (nat, nat, nat), b: (nat, nat, nat)) {
    a.0 < b.0 || (a.0 == b.0 && (a.1 < b.1 || (a.1 == b.1 && a.2 < b.2)))
  }

  function PaddedTriple(a: (nat, nat, nat), width: nat): (s: string)
    ensures |s| == width + 4 && AllDigits(s)
  {
    Padded(a.0, width) + (Padded(a.1, 2) + Padded(a.2, 2))
  }

  predicate FitsTriple(a: (nat, nat, nat), width: nat) {
    a.0 < Power10(width) && a.1 < 100 && a.2 < 100
  }

  lemma TripleOrder(a: (nat, nat, nat), x: string, b: (nat, nat, nat), y: string, width: nat)
    requires FitsTriple(a, width) && FitsTriple(b, width)
    ensures Less(PaddedTriple(a, width) + x, PaddedTriple(b, width) + y) <==> LessTriple(a, b) || (a == b && Less(x, y))
  {
    assert Power10(2) == 100 by {
      assert Power10(1) == 10;
    }
    var x1, y1 := Padded(a.2, 2) + x, Padded(b.2, 2) + y;
    PaddedOrder(a.2, x, b.2, y, 2);
    var x2, y2 := Padded(a.1, 2) + x1, Padded(b.1, 2) + y1;
    PaddedOrder(a.1, x1, b.1, y1, 2);
    PaddedOrder(a.0, x2, b.0, y2, width);
    assert PaddedTriple(a, width) + x == Padded(a.0, width) + x2;
    assert PaddedTriple(b, width) + y == Padded(b.0, width) + y2;
  }

  lemma ThreeParts(x: string, y: string, z: string)
    ensures var s := x + (y + z); s[..|x|] == x && s[|x|..|x| + |y|] == y && s[|x| + |y|..] == z
  {
  }

  lemma NumbersOfTriple(a: (nat, nat, nat), width: nat)
    requires FitsTriple(a, width)
    ensures
      var s := PaddedTriple(a, width);
      Number(s[..width]) == a.0 && Number(s[width..width + 2]) == a.1 && Number(s[width + 2..]) == a.2
  {
    assert Power10(2) == 100 by {
      assert Power10(1) == 10;
    }
    NumberOfPadded(a.0, width);
    NumberOfPadded(a.1, 2);
    NumberOfPadded(a.2, 2);
    ThreeParts(Padded(a.0, width), Padded(a.1, 2), Padded(a.2, 2));
  }

  predicate Contains(s: string, part: string) {
    exists i | 0 <= i <= |s| :: HasPrefix(s[i..], part)
  }

  function LastIndexBefore(s: string, sep: char, end: nat): (i: int)
    requires end <= |s|
    ensures -1 <= i < end && (i >= 0 ==> s[i] == sep)
    ensures forall k | i < k < end :: s[k] != sep
  {
    if end == 0 then -1 else if s[end - 1] == sep then end - 1 else LastIndexBefore(s, sep, end - 1)
  }

  /** Where the last separator is, if anywhere. */
  function LastIndex(s: string, sep: char): (i: int)
    ensures -1 <= i < |s| && (i >= 0 ==> s[i] == sep)
    ensures forall k | i < k < |s| :: s[k] != sep
  {
    LastIndexBefore(s, sep, |s|)
  }

  predicate IsSpace(c: char) {
    c in {'\t', '\n', '\r', ' '} || c as int in {11, 12}
  }

  lemma SpacesOfAscii(c: char)
    ensures c as int < 128 ==> (IsSpace(c) <==> c as int == 32 || 9 <= c as int <= 13)
  {
  }

  function TrimLeft(s: string): (r: string)
    ensures r == [] || !IsSpace(r[0])
    ensures |r| <= |s| && r == s[|s| - |r|..]
  {
    if s != [] && IsSpace(s[0]) then TrimLeft(s[1..]) else s
  }

  function TrimRight(s: string): (r: string)
    ensures r == [] || !IsSpace(r[|r| - 1])
    ensures r <= s
  {
    if s != [] && IsSpace(s[|s| - 1]) then TrimRight(s[..|s| - 1]) else s
  }

  function TrimSpace(s: string): (r: string)
    ensures r == [] || (!IsSpace(r[0]) && !IsSpace(r[|r| - 1]))
  {
    var left := TrimLeft(s);
    var r := TrimRight(left);
    assert r != [] ==> r[0] == left[0];
    r
  }

  lemma TrimmedStays(s: string)
    requires s == [] || (!IsSpace(s[0]) && !IsSpace(s[|s| - 1]))
    ensures TrimSpace(s) == s
  {
  }

  lemma TrimAfterSpace(s: string)
    ensures TrimSpace(" " + s) == TrimSpace(s)
  {
    assert (" " + s)[1..] == s;
  }

  /** ASCII letters only. */
  function LowerChar(c: char): char {
    if 'A' <= c <= 'Z' then c - 'A' + 'a' else c
  }

  function Lower(s: string): (r: string)
    ensures |r| == |s| && forall i | 0 <= i < |s| :: r[i] == LowerChar(s[i])
    ensures forall i | 0 <= i < |s| :: r[i] as int == s[i] as int + if 'A' <= s[i] <= 'Z' then 32 else 0
  {
    seq(|s|, i requires 0 <= i < |s| => LowerChar(s[i]))
  }

  lemma LowerTwice(s: string)
    ensures Lower(Lower(s)) == Lower(s)
  {
  }

  function Join(parts: seq<string>, sep: string): string
    requires |parts| >= 1
  {
    if |parts| == 1 then parts[0] else parts[0] + sep + Join(parts[1..], sep)
  }

  lemma SplitAtIndex(a: string, sep: char) returns (first: string, rest: string)
    requires sep in a
    ensures a == first + [sep] + rest && sep !in first && |rest| < |a|
    ensures Split(a, sep) == [first] + Split(rest, sep)
  {
    var i := Index(a, sep);
    first, rest := a[..i], a[i + 1..];
  }

  lemma {:induction false} JoinOfSplit(s: string, sep: char)
    ensures Join(Split(s, sep), [sep]) == s
    decreases |s|
  {
    if sep !in s {
      SplitWhole(s, sep);
    } else {
      var first, rest := SplitAtIndex(s, sep);
      JoinOfSplit(rest, sep);
      assert ([first] + Split(rest, sep))[1..] == Split(rest, sep);
    }
  }

  lemma Reassociated(a: string, b: string, c: string, d: string, e: string)
    ensures (a + b + c) + d + e == a + b + (c + d + e)
  {
  }

  lemma SplitConcatStep(first: string, rest: string, sep: char, b: string, parts: seq<string>, more: seq<string>)
    requires sep !in first && Split(rest + [sep] + b, sep) == parts + more
    ensures Split((first + [sep] + rest) + [sep] + b, sep) == ([first] + parts) + more
  {
    Reassociated(first, [sep], rest, [sep], b);
    SplitFirst(first, sep, rest + [sep] + b);
    assert [first] + (parts + more) == ([first] + parts) + more;
  }

  /** Splitting at a separator splits both sides. */
  lemma {:induction false} SplitConcat(a: string, sep: char, b: string)
    ensures Split(a + [sep] + b, sep) == Split(a, sep) + Split(b, sep)
    decreases |a|
  {
    if sep !in a {
      SplitWhole(a, sep);
      SplitFirst(a, sep, b);
    } else {
      var first, rest := SplitAtIndex(a, sep);
      SplitConcat(rest, sep, b);
      SplitConcatStep(first, rest, sep, b, Split(rest, sep), Split(b, sep));
    }
  }

  lemma {:induction false} JoinConcat(a: seq<string>, b: seq<string>, sep: string)
    requires |a| >= 1 && |b| >= 1
    ensures Join(a + b, sep) == Join(a, sep) + sep + Join(b, sep)
  {
    if |a| == 1 {
      assert (a + b)[1..] == b;
    } else {
      JoinConcat(a[1..], b, sep);
      assert (a + b)[1..] == a[1..] + b;
      assert a[0] + sep + (Join(a[1..], sep) + sep + Join(b, sep))
          == a[0] + sep + Join(a[1..], sep) + sep + Join(b, sep);
    }
  }

  predicate EndsInParts(parts: seq<string>, tail: seq<string>) {
    |tail| <= |parts| && parts[|parts| - |tail|..] == tail
  }

  lemma SuffixGivesParts(s: string, end: string, sep: char)
    requires s == end || HasSuffix(s, [sep] + end)
    ensures EndsInParts(Split(s, sep), Split(end, sep))
  {
    if s != end {
      var head := s[..|s| - |end| - 1];
      assert s == head + ([sep] + end) == head + [sep] + end;
      SplitConcat(head, sep, end);
    }
  }

  lemma JoinedSuffix(head: seq<string>, tail: seq<string>, sep: char)
    requires head != [] && tail != []
    ensures HasSuffix(Join(head + tail, [sep]), [sep] + Join(tail, [sep]))
  {
    hide Join;
    JoinConcat(head, tail, [sep]);
    assert Join(head + tail, [sep]) == Join(head, [sep]) + ([sep] + Join(tail, [sep]));
  }

  lemma PartsGiveSuffix(s: string, end: string, sep: char)
    requires EndsInParts(Split(s, sep), Split(end, sep))
    ensures s == end || HasSuffix(s, [sep] + end)
  {
    hide Split, Join, HasSuffix;
    var parts, tail := Split(s, sep), Split(end, sep);
    JoinOfSplit(s, sep);
    JoinOfSplit(end, sep);
    var head := parts[..|parts| - |tail|];
    assert parts == head + tail;
    if head == [] {
      assert parts == tail;
    } else {
      JoinedSuffix(head, tail, sep);
    }
  }

  /** A string ends in another one at a separator exactly when its parts end in the other one's parts. */
  lemma SuffixOfParts(s: string, end: string, sep: char)
    ensures (s == end || HasSuffix(s, [sep] + end)) <==> EndsInParts(Split(s, sep), Split(end, sep))
  {
    if s == end || HasSuffix(s, [sep] + end) {
      SuffixGivesParts(s, end, sep);
    }
    if EndsInParts(Split(s, sep), Split(end, sep)) {
      PartsGiveSuffix(s, end, sep);
    }
  }

  /** What stands before the first separator starts the same way, as far as no separator is asked for. */
  lemma PrefixBefore(s: string, sep: char, prefix: string)
    requires sep !in prefix
    ensures HasPrefix(s[..Index(s, sep)], prefix) <==> HasPrefix(s, prefix)
  {
    if HasPrefix(s, prefix) {
      assert forall k | 0 <= k < |prefix| :: s[k] == prefix[k];
    }
  }

  ghost predicate AllIn(s: string, chars: char -> bool) {
    forall k {:trigger s[k]} | 0 <= k < |s| :: chars(s[k])
  }

  /** What holds of the separator and of every character of the parts holds of every character. */
  lemma {:induction false} CharsOfParts(s: string, sep: char, chars: char -> bool)
    requires chars(sep) && forall k | 0 <= k < |Split(s, sep)| :: AllIn(Split(s, sep)[k], chars)
    ensures AllIn(s, chars)
    decreases |s|
  {
    if sep !in s {
      SplitWhole(s, sep);
      assert AllIn(Split(s, sep)[0], chars);
    } else {
      var first, rest := SplitAtIndex(s, sep);
      assert AllIn(Split(s, sep)[0], chars);
      forall k | 0 <= k < |Split(rest, sep)| ensures AllIn(Split(rest, sep)[k], chars) {
        assert Split(s, sep)[k + 1] == Split(rest, sep)[k];
      }
      CharsOfParts(rest, sep, chars);
    }
  }

  lemma LowerConcat(a: string, sep: char, b: string)
    requires LowerChar(sep) == sep
    ensures Lower(a + [sep] + b) == Lower(a) + [sep] + Lower(b)
  {
  }

  lemma LowerHasNo(s: string, sep: char)
    requires sep !in s && !('a' <= sep <= 'z')
    ensures sep !in Lower(s)
  {
  }

  /** Case and splitting do not get into each other's way. */
  lemma {:induction false} LowerSplit(s: string, sep: char)
    requires LowerChar(sep) == sep && !('a' <= sep <= 'z')
    ensures |Split(Lower(s), sep)| == |Split(s, sep)|
    ensures forall k | 0 <= k < |Split(s, sep)| :: Split(Lower(s), sep)[k] == Lower(Split(s, sep)[k])
    decreases |s|
  {
    if sep !in s {
      LowerHasNo(s, sep);
      SplitWhole(s, sep);
      SplitWhole(Lower(s), sep);
    } else {
      var first, rest := SplitAtIndex(s, sep);
      LowerSplit(rest, sep);
      LowerHasNo(first, sep);
      LowerConcat(first, sep, rest);
      SplitFirst(Lower(first), sep, Lower(rest));
    }
  }

  /** What splitting at commas makes of parts joined with a comma and a space. */
  function Spaced(parts: seq<string>): (r: seq<string>)
    ensures |r| == |parts|
  {
    seq(|parts|, k requires 0 <= k < |parts| => if k == 0 then parts[0] else " " + parts[k])
  }

  lemma JoinFirst(before: string, parts: seq<string>)
    requires |parts| >= 2
    ensures before + Join(parts, ", ") == (before + parts[0]) + [','] + (" " + Join(parts[1..], ", "))
  {
  }

  lemma SpacedRest(parts: seq<string>)
    requires |parts| >= 2
    ensures Spaced(parts)[1..] == [" " + parts[1]] + Spaced(parts[1..])[1..]
  {
  }

  lemma {:induction false} SplitOfJoin(before: string, parts: seq<string>)
    requires |parts| >= 1 && ',' !in before && forall k | 0 <= k < |parts| :: ',' !in parts[k]
    ensures Split(before + Join(parts, ", "), ',') == [before + parts[0]] + Spaced(parts)[1..]
    decreases |parts|
  {
    var first := before + parts[0];
    if |parts| == 1 {
      SplitWhole(first, ',');
      assert Spaced(parts)[1..] == [];
    } else {
      SplitOfJoin(" ", parts[1..]);
      JoinFirst(before, parts);
      SplitFirst(first, ',', " " + Join(parts[1..], ", "));
      SpacedRest(parts);
    }
  }

  lemma SplitOfWholeJoin(parts: seq<string>)
    requires |parts| >= 1 && forall k | 0 <= k < |parts| :: ',' !in parts[k]
    ensures Split(Join(parts, ", "), ',') == Spaced(parts)
  {
    SplitOfJoin("", parts);
    assert "" + Join(parts, ", ") == Join(parts, ", ");
    assert "" + parts[0] == parts[0] == Spaced(parts)[0];
    assert [parts[0]] + Spaced(parts)[1..] == Spaced(parts);
  }

  lemma {:induction false} JoinEnds(parts: seq<string>, sep: string)
    requires |parts| >= 1 && forall k | 0 <= k < |parts| :: parts[k] != ""
    ensures
      var s := Join(parts, sep);
      s != "" && s[0] == parts[0][0] && s[|s| - 1] == parts[|parts| - 1][|parts[|parts| - 1]| - 1]
  {
    if |parts| > 1 {
      JoinEnds(parts[1..], sep);
    }
  }
}
