/** Numbers on the project overview: thousands grouping, deltas, and the scaling of the
    activity chart (view/overview_templ.go). int64 is a mathematical integer with its
    bounds written out. */
module Overview {
  import opened Prelude

  const MAX_INT64: int := 0x7fff_ffff_ffff_ffff
  const MIN_INT64: int := -0x8000_0000_0000_0000

  predicate IsInt64(n: int) {
    MIN_INT64 <= n <= MAX_INT64
  }

  // ----- decimal digits -------------------------------------------------------

  function Digit(d: int): (c: char)
    requires 0 <= d < 10
    ensures '0' <= c <= '9'
  {
    '0' + d as char
  }

  predicate IsDigit(c: char) {
    '0' <= c <= '9'
  }

  function Digits(n: nat): (s: string)
    ensures |s| > 0 && forall i :: 0 <= i < |s| ==> IsDigit(s[i])
  {
    if n < 10 then [Digit(n)] else Digits(n / 10) + [Digit(n % 10)]
  }

  /** fmt's %d. */
  function Decimal(n: int): string {
    if n < 0 then "-" + Digits(-n) else Digits(n)
  }

  function DigitValue(c: char): nat
    requires IsDigit(c)
  {
    c as int - '0' as int
  }

  function Value(s: string): nat
    requires forall i :: 0 <= i < |s| ==> IsDigit(s[i])
  {
    if s == [] then 0 else Value(s[..|s| - 1]) * 10 + DigitValue(s[|s| - 1])
  }

  lemma {:induction false} ValueOfDigits(n: nat)
    ensures Value(Digits(n)) == n
  {
    if n >= 10 {
      ValueOfDigits(n / 10);
      assert Digits(n)[..|Digits(n)| - 1] == Digits(n / 10);
    } else {
      assert Digits(n)[..0] == [];
    }
  }

  lemma DigitsDetermineTheNumber(a: nat, b: nat)
    requires Digits(a) == Digits(b)
    ensures a == b
  {
    ValueOfDigits(a);
    ValueOfDigits(b);
  }

  // ----- commaGroup -------------------------------------------------------------

  /** What the loop has written once it has passed the first i characters of s. */
  function Grouped(s: string, i: nat): string
    requires i <= |s|
  {
    if i == 0 then []
    else
      Grouped(s, i - 1) + Written(s, i - 1)
  }

  /** What one turn of the loop writes. */
  function Written(s: string, i: nat): string
    requires i < |s|
  {
    if i > 0 && (|s| - i) % 3 == 0 then [',', s[i]] else [s[i]]
  }

  function CommaGroup(n: int): string {
    var s := Decimal(n);
    if |s| <= 3 then s else Grouped(s, |s|)
  }

  method WriteCommaGroup(n: int) returns (out: string)
    requires IsInt64(n)
    ensures out == CommaGroup(n)
  {
    var s := Decimal(n);
    if |s| <= 3 {
      return s;
    }
    out := [];
    for i := 0 to |s|
      invariant out == Grouped(s, i)
    {
      if i > 0 && (|s| - i) % 3 == 0 {
        out := out + ",";
      }
      out := out + [s[i]];
    }
  }

  function WithoutCommas(s: string): string {
    if s == [] then []
    else WithoutCommas(s[..|s| - 1]) + if s[|s| - 1] == ',' then [] else [s[|s| - 1]]
  }

  lemma {:induction false} WithoutCommasAppends(a: string, b: string)
    ensures WithoutCommas(a + b) == WithoutCommas(a) + WithoutCommas(b)
  {
    if b == [] {
      assert a + b == a;
    } else {
      assert (a + b)[..|a + b| - 1] == a + b[..|b| - 1];
      WithoutCommasAppends(a, b[..|b| - 1]);
    }
  }

  // The same text from the right, three digits at a time.

  /** s in groups: all of three, but for a first of one to three. */
  function Groups(s: string): (groups: seq<string>)
    requires s != []
    ensures |groups| == (|s| + 2) / 3
    ensures 1 <= |groups[0]| <= 3 && forall i :: 0 < i < |groups| ==> |groups[i]| == 3
  {
    if |s| <= 3 then [s] else Groups(s[..|s| - 3]) + [s[|s| - 3..]]
  }

  function Joined(groups: seq<string>): string
    requires groups != []
  {
    if |groups| == 1 then groups[0]
    else Joined(groups[..|groups| - 1]) + ("," + groups[|groups| - 1])
  }

  lemma {:induction false} GroupedIgnoresTail(s: string, t: string, i: nat)
    requires |s| == |t| + 3 && i <= |t| && s[..|t|] == t
    ensures Grouped(s, i) == Grouped(t, i)
  {
    if i > 0 {
      GroupedIgnoresTail(s, t, i - 1);
    }
  }

  lemma TwoMore(s: string, i: nat)
    requires i + 2 <= |s|
    ensures Grouped(s, i + 2) == Grouped(s, i) + (Written(s, i) + Written(s, i + 1))
  {
    Regroup(Grouped(s, i), Written(s, i), Written(s, i + 1));
  }

  lemma FirstOfLastGroup(s: string)
    requires |s| > 3
    ensures var n := |s| - 3; Grouped(s, n + 1) == Grouped(s, n) + ("," + s[n..n + 1])
  {
    var n := |s| - 3;
    assert Written(s, n) == "," + s[n..n + 1];
  }

  lemma OneMoreOfLastGroup(s: string, k: nat)
    requires |s| > 3 && 1 <= k < 3
    ensures Grouped(s, |s| - 3 + k + 1) == Grouped(s, |s| - 3 + k) + [s[|s| - 3 + k]]
  {
    assert Written(s, |s| - 3 + k) == [s[|s| - 3 + k]];
  }

  lemma {:induction false} LastGroup(s: string, k: nat)
    requires |s| > 3 && 1 <= k <= 3
    ensures var n := |s| - 3;
            Grouped(s, n + k) == Grouped(s, n) + ("," + s[n..n + k])
  {
    var n := |s| - 3;
    if k == 1 {
      FirstOfLastGroup(s);
    } else {
      LastGroup(s, k - 1);
      OneMoreOfLastGroup(s, k - 1);
      Regroup(Grouped(s, n), "," + s[n..n + k - 1], [s[n + k - 1]]);
      Regroup(",", s[n..n + k - 1], [s[n + k - 1]]);
      SliceGrows(s, n, n + k - 1);
    }
  }

  lemma {:induction false} ShortStringsStay(s: string, i: nat)
    requires i <= |s| <= 3
    ensures Grouped(s, i) == s[..i]
  {
    if i > 0 {
      ShortStringsStay(s, i - 1);
      assert Written(s, i - 1) == [s[i - 1]];
    }
  }

  /** The left-to-right loop writes the right-to-left groups. */
  lemma {:induction false} LoopWritesGroups(s: string)
    requires s != []
    ensures Grouped(s, |s|) == Joined(Groups(s))
    decreases |s|
  {
    if |s| <= 3 {
      ShortStringsStay(s, |s|);
    } else {
      var t := s[..|s| - 3];
      LoopWritesGroups(t);
      GroupedIgnoresTail(s, t, |t|);
      LastGroup(s, 3);
      SliceToEnd(s, |s| - 3, |s|);
      assert Groups(s)[..|Groups(s)| - 1] == Groups(t);
    }
  }

  lemma {:induction false} NoCommasToDrop(s: string)
    requires forall k :: 0 <= k < |s| ==> s[k] != ','
    ensures WithoutCommas(s) == s
  {
    if s != [] {
      NoCommasToDrop(s[..|s| - 1]);
    }
  }

  lemma LastGroupUngroups(front: string, last: string)
    requires forall k :: 0 <= k < |last| ==> last[k] != ','
    ensures WithoutCommas(front + ("," + last)) == WithoutCommas(front) + last
  {
    CommaGoes(last);
    WithoutCommasAppends(front, "," + last);
  }

  lemma CommaGoes(last: string)
    requires forall k :: 0 <= k < |last| ==> last[k] != ','
    ensures WithoutCommas("," + last) == last
  {
    NoCommasToDrop(last);
    WithoutCommasAppends(",", last);
    assert WithoutCommas(",") == "" && "" + last == last;
  }

  lemma {:induction false} UngroupingInverts(s: string)
    requires s != [] && forall k :: 0 <= k < |s| ==> s[k] != ','
    ensures WithoutCommas(Joined(Groups(s))) == s
    ensures |Joined(Groups(s))| == |s| + (|s| - 1) / 3
    decreases |s|
  {
    if |s| <= 3 {
      NoCommasToDrop(s);
    } else {
      var t := s[..|s| - 3];
      UngroupingInverts(t);
      LastGroupUngroups(Joined(Groups(t)), s[|s| - 3..]);
      assert t + s[|s| - 3..] == s;
    }
  }

  lemma ShortStringsAreOneGroup(s: string)
    requires s != [] && |s| <= 3
    ensures Joined(Groups(s)) == s
  {}

  lemma CommaGroupIsJoined(n: nat)
    ensures CommaGroup(n) == Joined(Groups(Digits(n)))
  {
    var s := Digits(n);
    if |s| <= 3 {
      ShortStringsAreOneGroup(s);
    } else {
      LoopWritesGroups(s);
    }
  }

  /** The grouping round trip, for every n >= 0: the text is the decimal digits in comma
      separated groups, of three but for the first; deleting the commas gives the digits
      back; and the length is that of the digits and one for each comma. */
  lemma CommaGroupRoundTrip(n: nat)
    ensures CommaGroup(n) == Joined(Groups(Digits(n)))
    ensures WithoutCommas(CommaGroup(n)) == Digits(n)
    ensures |CommaGroup(n)| == |Digits(n)| + (|Digits(n)| - 1) / 3
  {
    CommaGroupIsJoined(n);
    DigitsHaveNoCommas(n);
    UngroupingInverts(Digits(n));
  }

  lemma DigitsHaveNoCommas(n: nat)
    ensures forall k :: 0 <= k < |Digits(n)| ==> Digits(n)[k] != ','
  {
    assert forall k :: 0 <= k < |Digits(n)| ==> IsDigit(Digits(n)[k]);
  }

  lemma CommaGroupDeterminesTheNumber(a: nat, b: nat)
    requires CommaGroup(a) == CommaGroup(b)
    ensures a == b
  {
    CommaGroupRoundTrip(a);
    CommaGroupRoundTrip(b);
    DigitsDetermineTheNumber(a, b);
  }

  /** A negative number loses its shape exactly when its digits fill whole groups: the
      comma then falls right behind the sign. */
  lemma SignTakesACommaExactlyWhenGroupsAreFull(n: int)
    requires n < 0
    ensures var out := CommaGroup(n);
            |out| > 1 && (out[1] == ',' <==> |Digits(-n)| % 3 == 0)
  {
    var s := Decimal(n);
    assert s[1..] == Digits(-n) && s[1] == Digits(-n)[0] && IsDigit(s[1]);
    if |s| > 3 {
      GroupedStartsWith(s, |s|);
    }
  }

  lemma {:induction false} GroupedStartsWith(s: string, i: nat)
    requires 2 <= i <= |s|
    ensures Written(s, 0) + Written(s, 1) <= Grouped(s, i)
  {
    if i > 2 {
      GroupedStartsWith(s, i - 1);
    } else {
      TwoMore(s, 0);
    }
  }

  // ----- deltaLabel ---------------------------------------------------------------

  /** -delta in int64: the least one is its own negation. */
  function Negate64(n: int): (r: int)
    requires IsInt64(n)
    ensures IsInt64(r)
  {
    if n == MIN_INT64 then MIN_INT64 else -n
  }

  const UP: string := "\U{2191} "
  const DOWN: string := "\U{2193} "

  function DeltaLabel(delta: int, suffix: string): string
    requires IsInt64(delta)
  {
    if delta > 0 then UP + CommaGroup(delta) + " " + suffix
    else if delta < 0 then DOWN + CommaGroup(Negate64(delta)) + " " + suffix
    else "no change " + suffix
  }

  /** What deltaLabel hands to commaGroup is a magnitude, except for the one number that
      has none in int64. */
  lemma DeltaIsGroupedAsAMagnitude(delta: int)
    requires IsInt64(delta) && delta < 0
    ensures Negate64(delta) >= 0 <==> delta != MIN_INT64
    ensures delta != MIN_INT64 ==> Negate64(delta) == -delta
  {}

  lemma AppendingTheSameTail(a: string, b: string, tail: string)
    requires a + tail == b + tail
    ensures a == b
  {
    assert |a| == |b|;
    assert (a + tail)[..|a|] == a && (b + tail)[..|b|] == b;
  }

  lemma PrependingTheSameHead(head: string, a: string, b: string)
    requires head + a == head + b
    ensures a == b
  {
    assert (head + a)[|head|..] == a && (head + b)[|head|..] == b;
  }

  /** Where the suffix starts, with its space. */
  function BeforeSuffix(shown: string, suffix: string): int {
    |shown| - |suffix| - 1
  }

  /** What a label says: an arrow up and the digits of the growth, an arrow down and those of
      the loss; then the suffix. */
  lemma LabelSaysWhichWay(delta: int, suffix: string)
    requires IsInt64(delta) && delta != MIN_INT64 && delta != 0
    ensures var shown := DeltaLabel(delta, suffix); var n := BeforeSuffix(shown, suffix);
            && n >= 2 && shown[n..] == " " + suffix
            && shown[0] == (if delta > 0 then '\U{2191}' else '\U{2193}') && shown[1] == ' '
            && WithoutCommas(shown[2..n]) == Digits(if delta > 0 then delta else -delta)
  {
    var size := if delta > 0 then delta else -delta;
    LabelInThree(if delta > 0 then UP else DOWN, CommaGroup(size), suffix);
    CommaGroupRoundTrip(size);
  }

  lemma NoChangeIsSaid(suffix: string)
    ensures DeltaLabel(0, suffix) == "no change" + (" " + suffix)
  {}

  lemma LabelInThree(head: string, middle: string, suffix: string)
    requires |head| == 2
    ensures var shown := head + middle + " " + suffix; var n := BeforeSuffix(shown, suffix);
            shown[n..] == " " + suffix && shown[2..n] == middle && shown[0] == head[0] && shown[1] == head[1]
  {}

  lemma LabelsStartApart(a: int, b: int, suffix: string)
    requires IsInt64(a) && IsInt64(b) && DeltaLabel(a, suffix) == DeltaLabel(b, suffix)
    ensures (a > 0 <==> b > 0) && (a < 0 <==> b < 0)
  {
    var la, lb := DeltaLabel(a, suffix), DeltaLabel(b, suffix);
    assert a > 0 ==> la[0] == UP[0];
    assert b > 0 ==> lb[0] == UP[0];
    assert a < 0 ==> la[0] == DOWN[0];
    assert b < 0 ==> lb[0] == DOWN[0];
    assert a == 0 ==> la[0] == 'n';
    assert b == 0 ==> lb[0] == 'n';
  }

  lemma MiddleOfALabel(head: string, a: string, b: string, suffix: string)
    requires head + a + " " + suffix == head + b + " " + suffix
    ensures a == b
  {
    AppendingTheSameTail(head + a + " ", head + b + " ", suffix);
    AppendingTheSameTail(head + a, head + b, " ");
    PrependingTheSameHead(head, a, b);
  }

  /** The number shown and the direction together say what the delta was: two deltas
      with the same label are the same, the least int64 included. */
  lemma LabelDeterminesTheDelta(a: int, b: int, suffix: string)
    requires IsInt64(a) && IsInt64(b) && DeltaLabel(a, suffix) == DeltaLabel(b, suffix)
    ensures a == b
  {
    LabelsStartApart(a, b, suffix);
    if a > 0 {
      MiddleOfALabel(UP, CommaGroup(a), CommaGroup(b), suffix);
      CommaGroupDeterminesTheNumber(a, b);
    } else if a < 0 {
      MiddleOfALabel(DOWN, CommaGroup(Negate64(a)), CommaGroup(Negate64(b)), suffix);
      SameMagnitude(a, b);
    }
  }

  lemma SameMagnitude(a: int, b: int)
    requires IsInt64(a) && IsInt64(b) && a < 0 && b < 0
    requires CommaGroup(Negate64(a)) == CommaGroup(Negate64(b))
    ensures a == b
  {
    if a != MIN_INT64 && b != MIN_INT64 {
      CommaGroupDeterminesTheNumber(-a, -b);
    } else if a != b {
      MagnitudeHasNoSign(if a == MIN_INT64 then -b else -a);
      LeastKeepsItsSign();
    }
  }

  lemma MagnitudeHasNoSign(n: nat)
    ensures CommaGroup(n) != [] && CommaGroup(n)[0] != '-'
  {
    var s := Digits(n);
    CommaGroupRoundTrip(n);
    if |s| > 3 {
      GroupedStartsWith(s, |s|);
    }
    assert IsDigit(s[0]);
  }

  lemma LeastKeepsItsSign()
    ensures CommaGroup(MIN_INT64) != [] && CommaGroup(MIN_INT64)[0] == '-'
  {
    var s := Decimal(MIN_INT64);
    if |s| > 3 {
      GroupedStartsWith(s, |s|);
    }
  }
}
