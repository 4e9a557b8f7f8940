/**
 * The text the page shows: `Int32.ToString()` in the invariant culture,
 * `string.Join` and the `"(a, b, ...)"` form of a factor list.  The
 * parser here is the independent partner that proves the displayed text
 * determines the numbers shown.
 */
module Text {
  import opened Wrappers

  predicate IsDigit(c: char) {
    '0' <= c <= '9'
  }

  function DigitChar(d: int): (c: char)
    requires 0 <= d < 10
    ensures IsDigit(c)
  {
    ('0' as int + d) as char
  }

  function DigitValue(c: char): (d: nat)
    requires IsDigit(c)
    ensures d < 10 && DigitChar(d) == c
  {
    c as int - '0' as int
  }

  /** Decimal digits of `n`, most significant first, without leading zeros. */
  function NatToString(n: nat): (s: string)
    ensures 1 <= |s| && forall i :: 0 <= i < |s| ==> IsDigit(s[i])
    ensures s[0] == '0' ==> n == 0
    decreases n
  {
    if n < 10 then [DigitChar(n)] else NatToString(n / 10) + [DigitChar(n % 10)]
  }

  /** `Int32.ToString()`: a minus sign, then the digits of the magnitude. */
  function IntToString(n: int): (s: string)
    ensures 1 <= |s| && (s[0] == '-' <==> n < 0)
    ensures forall i :: 1 <= i < |s| ==> IsDigit(s[i])
  {
    if n < 0 then "-" + NatToString(-n) else NatToString(n)
  }

  /** `string.Join(sep, parts)`. */
  function Join(sep: string, parts: seq<string>): (r: string)
    ensures |parts| == 0 ==> r == ""
    ensures |parts| >= 1 ==> parts[0] <= r
    decreases |parts|
  {
    if |parts| == 0 then ""
    else if |parts| == 1 then parts[0]
    else parts[0] + sep + Join(sep, parts[1..])
  }

  function IntsToStrings(xs: seq<int>): (ss: seq<string>)
    ensures |ss| == |xs| && forall i :: 0 <= i < |xs| ==> ss[i] == IntToString(xs[i])
  {
    if xs == [] then [] else [IntToString(xs[0])] + IntsToStrings(xs[1..])
  }

  /** `$"({string.Join(", ", xs)})"` for a list of integers. */
  function FormatList(xs: seq<int>): (r: string)
    ensures 2 <= |r| && r[0] == '(' && r[|r| - 1] == ')'
  {
    "(" + Join(", ", IntsToStrings(xs)) + ")"
  }

  // ----- the reading direction -----

  function ParseNat(s: string): nat
    requires forall i :: 0 <= i < |s| ==> IsDigit(s[i])
    decreases |s|
  {
    if s == [] then 0 else ParseNat(s[..|s| - 1]) * 10 + DigitValue(s[|s| - 1])
  }

  /** Length of the run of digits at the front of `s`. */
  function DigitRun(s: string): (k: nat)
    ensures k <= |s| && forall i :: 0 <= i < k ==> IsDigit(s[i])
    ensures k < |s| ==> !IsDigit(s[k])
    decreases |s|
  {
    if s == [] || !IsDigit(s[0]) then 0 else 1 + DigitRun(s[1..])
  }

  /** Reads an optionally negative decimal integer at the front of `s`: its value and the characters it took. */
  function ScanInt(s: string): (r: Option<(int, nat)>)
    ensures r.Some? ==> 1 <= r.value.1 <= |s|
  {
    if |s| > 0 && s[0] == '-' then
      var k := DigitRun(s[1..]);
      var v := 0 - ParseNat(s[1..1 + k]) as int;
      if k == 0 then None else Some((v, 1 + k))
    else
      var k := DigitRun(s);
      if k == 0 then None else Some((ParseNat(s[..k]), k))
  }

  /** Reads integers separated by `", "` that make up all of `s`. */
  function ParseItems(s: string): Option<seq<int>>
    decreases |s|
  {
    match ScanInt(s)
    case None => None
    case Some((v, k)) =>
      if k == |s| then Some([v])
      else if k + 2 <= |s| && s[k..k + 2] == ", " then
        match ParseItems(s[k + 2..])
        case None => None
        case Some(vs) => Some([v] + vs)
      else None
  }

  /** Reads back a `"(a, b, ...)"` list. */
  function ParseList(s: string): Option<seq<int>> {
    if 2 <= |s| && s[0] == '(' && s[|s| - 1] == ')' then
      var inner := s[1..|s| - 1];
      if inner == "" then Some([]) else ParseItems(inner)
    else None
  }

  // ----- round trips -----

  lemma {:induction false} ParseNatToString(n: nat)
    ensures ParseNat(NatToString(n)) == n
    decreases n
  {
    if n >= 10 {
      ParseNatToString(n / 10);
      var s := NatToString(n);
      assert s[..|s| - 1] == NatToString(n / 10);
    }
  }

  lemma {:induction false} DigitRunOfDigits(t: string, rest: string)
    requires forall i :: 0 <= i < |t| ==> IsDigit(t[i])
    requires rest == [] || !IsDigit(rest[0])
    ensures DigitRun(t + rest) == |t|
    decreases |t|
  {
    if t != [] {
      DigitRunOfDigits(t[1..], rest);
      assert (t + rest)[1..] == t[1..] + rest;
    }
  }

  lemma ScanNatToString(n: nat, rest: string)
    requires rest == [] || !IsDigit(rest[0])
    ensures ScanInt(NatToString(n) + rest) == Some((n, |NatToString(n)|))
  {
    var d := NatToString(n);
    var s := d + rest;
    ParseNatToString(n);
    DigitRunOfDigits(d, rest);
    assert s[..|d|] == d;
  }

  lemma ScanNegativeToString(n: int, rest: string)
    requires n < 0
    requires rest == [] || !IsDigit(rest[0])
    ensures ScanInt("-" + NatToString(-n) + rest) == Some((n, 1 + |NatToString(-n)|))
  {
    var d := NatToString(-n);
    var s := "-" + d + rest;
    assert s[0] == '-';
    ParseNatToString(-n);
    assert s[1..] == d + rest;
    DigitRunOfDigits(d, rest);
    var k := DigitRun(s[1..]);
    assert k == |d| > 0;
    assert s[1..1 + k] == d;
    assert ParseNat(s[1..1 + k]) == -n;
  }

  /** The decimal text of `n`, followed by anything that is not a digit, reads back as `n`. */
  lemma ScanIntToString(n: int, rest: string)
    requires rest == [] || !IsDigit(rest[0])
    ensures ScanInt(IntToString(n) + rest) == Some((n, |IntToString(n)|))
  {
    if n < 0 {
      assert IntToString(n) == "-" + NatToString(-n);
      ScanNegativeToString(n, rest);
    } else {
      assert IntToString(n) == NatToString(n);
      ScanNatToString(n, rest);
    }
  }

  /** `Int32.ToString()` is injective: its text reads back as the number. */
  lemma IntToStringRoundTrip(n: int)
    ensures ScanInt(IntToString(n)) == Some((n, |IntToString(n)|))
  {
    ScanIntToString(n, []);
    assert IntToString(n) + [] == IntToString(n);
  }

  lemma {:induction false} ParseItemsOfJoin(xs: seq<int>)
    requires xs != []
    ensures ParseItems(Join(", ", IntsToStrings(xs))) == Some(xs)
    decreases |xs|
  {
    var ss := IntsToStrings(xs);
    var head := IntToString(xs[0]);
    if |xs| == 1 {
      IntToStringRoundTrip(xs[0]);
      assert Join(", ", ss) == head;
      assert xs == [xs[0]];
    } else {
      var tail := Join(", ", ss[1..]);
      var s := Join(", ", ss);
      assert ss[1..] == IntsToStrings(xs[1..]);
      assert s == head + (", " + tail);
      ScanIntToString(xs[0], ", " + tail);
      var k := |head|;
      assert s[k..k + 2] == ", ";
      assert s[k + 2..] == tail;
      ParseItemsOfJoin(xs[1..]);
      assert [xs[0]] + xs[1..] == xs;
    }
  }

  /** The `"(a, b, ...)"` text of a list reads back as that list. */
  lemma FormatListRoundTrip(xs: seq<int>)
    ensures ParseList(FormatList(xs)) == Some(xs)
  {
    var s := FormatList(xs);
    assert s[1..|s| - 1] == Join(", ", IntsToStrings(xs));
    if xs != [] {
      ParseItemsOfJoin(xs);
      var ss := IntsToStrings(xs);
      assert |ss[0]| >= 1;
      assert |Join(", ", ss)| >= 1 by {
        if |ss| > 1 {
          assert Join(", ", ss) == ss[0] + ", " + Join(", ", ss[1..]);
        }
      }
    }
  }

  /** Different lists are shown as different text. */
  lemma FormatListInjective(xs: seq<int>, ys: seq<int>)
    requires FormatList(xs) == FormatList(ys)
    ensures xs == ys
  {
    FormatListRoundTrip(xs);
    FormatListRoundTrip(ys);
  }
}
