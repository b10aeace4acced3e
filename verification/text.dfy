/** String helpers the .NET base library provides to the original code: decimal
    rendering and parsing of integers, ASCII lower-casing, white-space trimming,
    substring search and joining. Strings are sequences of UTF-16 code units,
    written here as `seq<char>`. */
module Text {
  import opened Wrappers

  // ---------------------------------------------------------------- characters

  predicate IsDigit(c: char) {
    '0' <= c <= '9'
  }

  /** The characters `string.Trim()` removes (the ASCII subset of Unicode white space). */
  predicate IsWhite(c: char) {
    c == ' ' || c == '\t' || c == '\n' || c == '\r' || c == '\U{B}' || c == '\U{C}'
  }

  predicate AllDigits(s: string) {
    forall i :: 0 <= i < |s| ==> IsDigit(s[i])
  }

  function DigitChar(d: nat): (c: char)
    requires d < 10
    ensures IsDigit(c)
  {
    (('0' as int) + d) as char
  }

  function DigitValue(c: char): (d: nat)
    requires IsDigit(c)
    ensures d < 10
  {
    (c as int) - ('0' as int)
  }

  lemma DigitRoundTrip(d: nat)
    requires d < 10
    ensures DigitValue(DigitChar(d)) == d
  {
  }

  // ---------------------------------------------------------- decimal numbers

  /** `n.ToString()` for a non-negative integer: shortest decimal form. */
  function NatToString(n: nat): (s: string)
    ensures |s| >= 1 && AllDigits(s)
    ensures |s| > 1 ==> s[0] != '0'
    decreases n
  {
    if n < 10 then [DigitChar(n)] else NatToString(n / 10) + [DigitChar(n % 10)]
  }

  /** `long.ToString()` in the invariant culture: a '-' sign before negative numbers. */
  function IntToString(i: int): (s: string)
    ensures |s| >= 1
    ensures i >= 0 ==> AllDigits(s)
    ensures i < 0 ==> s[0] == '-' && |s| >= 2 && AllDigits(s[1..])
  {
    if i >= 0 then NatToString(i) else "-" + NatToString(-i)
  }

  /** The value of a string of decimal digits, read left to right. */
  function DigitsValue(s: string): nat
    requires AllDigits(s)
  {
    if |s| == 0 then 0 else 10 * DigitsValue(s[..|s| - 1]) + DigitValue(s[|s| - 1])
  }

  /** Strict decimal parsing: an optional '-' followed by at least one digit.
      (The library parser's default integer style also accepts leading and
      trailing white space and a leading '+'; it accepts no group separators.) */
  function ParseInt(s: string): (r: Option<int>)
    ensures r.Some? && |s| > 0 && s[0] != '-' ==> r.value >= 0
  {
    if |s| > 0 && AllDigits(s) then Some(DigitsValue(s))
    else if |s| > 1 && s[0] == '-' && AllDigits(s[1..]) then Some(0 - DigitsValue(s[1..]) as int)
    else None
  }

  const MinLong: int := -0x8000_0000_0000_0000
  const MaxLong: int := 0x7FFF_FFFF_FFFF_FFFF

  predicate IsLong(i: int) {
    MinLong <= i <= MaxLong
  }

  /** `long.Parse`: a format error for anything but a decimal number and an
      overflow error outside the 64-bit range. */
  function ParseLong(s: string): (r: Result<int>)
    ensures r.Ok? <==> ParseInt(s).Some? && IsLong(ParseInt(s).value)
    ensures r.Ok? ==> r.value == ParseInt(s).value
  {
    match ParseInt(s)
    case None => Err(Unexpected("The input string '" + s + "' was not in a correct format."))
    case Some(i) =>
      if IsLong(i) then Ok(i) else Err(Unexpected("Value was either too large or too small for an Int64."))
  }

  lemma {:induction false} NatToStringValue(n: nat)
    ensures DigitsValue(NatToString(n)) == n
    decreases n
  {
    var s := NatToString(n);
    if n >= 10 {
      NatToStringValue(n / 10);
      assert s[..|s| - 1] == NatToString(n / 10);
      DigitRoundTrip(n % 10);
    } else {
      DigitRoundTrip(n);
    }
  }

  /** Rendering then parsing gives the number back. */
  lemma IntStringRoundTrip(i: int)
    ensures ParseInt(IntToString(i)) == Some(i)
  {
    if i >= 0 {
      NatToStringValue(i);
    } else {
      NatToStringValue(-i);
      var s := IntToString(i);
      assert s[1..] == NatToString(-i);
    }
  }

  /** Every 64-bit number survives rendering and `long.Parse`. */
  lemma LongStringRoundTrip(i: int)
    requires IsLong(i)
    ensures ParseLong(IntToString(i)) == Ok(i)
  {
    IntStringRoundTrip(i);
  }

  /** Different numbers have different decimal forms. */
  lemma IntToStringInjective(a: int, b: int)
    ensures IntToString(a) == IntToString(b) ==> a == b
  {
    IntStringRoundTrip(a);
    IntStringRoundTrip(b);
  }

  // ------------------------------------------------------------------ casing

  function LowerChar(c: char): char {
    if 'A' <= c <= 'Z' then ((c as int) + 32) as char else c
  }

  /** `ToLower()` restricted to ASCII letters. */
  function Lower(s: string): (r: string)
    ensures |r| == |s|
    ensures forall i :: 0 <= i < |s| ==> r[i] == LowerChar(s[i])
  {
    if |s| == 0 then "" else [LowerChar(s[0])] + Lower(s[1..])
  }

  // ---------------------------------------------------------------- searching

  predicate Contains(s: string, c: char) {
    exists i :: 0 <= i < |s| && s[i] == c
  }

  predicate StartsWith(s: string, prefix: string) {
    |prefix| <= |s| && s[..|prefix|] == prefix
  }

  predicate OccursAt(s: string, pat: string, i: nat) {
    i + |pat| <= |s| && s[i..i + |pat|] == pat
  }

  /** `s.IndexOf(pat, from)`: the first position at or after `from` where `pat` occurs. */
  function IndexOf(s: string, pat: string, from: nat): (r: Option<nat>)
    requires |pat| > 0
    ensures r.Some? ==> from <= r.value && OccursAt(s, pat, r.value)
    ensures r.Some? ==> forall j :: from <= j < r.value ==> !OccursAt(s, pat, j)
    ensures r.None? ==> forall j :: from <= j ==> !OccursAt(s, pat, j)
    decreases |s| - from
  {
    if from + |pat| > |s| then None
    else if s[from..from + |pat|] == pat then Some(from)
    else IndexOf(s, pat, from + 1)
  }

  /** A pattern whose first character does not occur from `from` on is not
      found. */
  lemma IndexOfAbsent(s: string, pat: string, from: nat)
    requires |pat| > 0
    requires forall j :: from <= j < |s| ==> s[j] != pat[0]
    ensures IndexOf(s, pat, from).None?
  {
    forall j | from <= j
      ensures !OccursAt(s, pat, j)
    {
      if j + |pat| <= |s| {
        assert s[j..j + |pat|][0] == s[j];
      }
    }
  }

  // ------------------------------------------------------------------ trimming

  /** `s.TrimStart()`. */
  function TrimStart(s: string): (r: string)
    ensures |r| <= |s| && r == s[|s| - |r|..]
    ensures |r| > 0 ==> !IsWhite(r[0])
    ensures forall i :: 0 <= i < |s| - |r| ==> IsWhite(s[i])
  {
    if |s| > 0 && IsWhite(s[0]) then TrimStart(s[1..]) else s
  }

  /** `s.TrimEnd()`. */
  function TrimEnd(s: string): (r: string)
    ensures |r| <= |s| && r == s[..|r|]
    ensures |r| > 0 ==> !IsWhite(r[|r| - 1])
    ensures forall i :: |r| <= i < |s| ==> IsWhite(s[i])
  {
    if |s| > 0 && IsWhite(s[|s| - 1]) then TrimEnd(s[..|s| - 1]) else s
  }

  /** `s.Trim()`. */
  function Trim(s: string): (r: string)
    ensures |r| > 0 ==> !IsWhite(r[0]) && !IsWhite(r[|r| - 1])
  {
    TrimEnd(TrimStart(s))
  }

  predicate IsTrimmed(s: string) {
    |s| > 0 ==> !IsWhite(s[0]) && !IsWhite(s[|s| - 1])
  }

  /** Trimming a string with no surrounding white space changes nothing. */
  lemma TrimIdentity(s: string)
    requires IsTrimmed(s)
    ensures Trim(s) == s
  {
  }

  /** `string.IsNullOrEmpty`. */
  predicate IsNullOrEmpty(s: Option<string>) {
    s.None? || |s.value| == 0
  }

  // ------------------------------------------------------------------ joining

  /** `string.Join(sep, parts)`. */
  function Join(parts: seq<string>, sep: string): (r: string)
    ensures |parts| == 0 ==> r == ""
    ensures |parts| == 1 ==> r == parts[0]
  {
    if |parts| == 0 then ""
    else if |parts| == 1 then parts[0]
    else parts[0] + sep + Join(parts[1..], sep)
  }

  /** Joining one more part appends the separator and then the part. */
  lemma {:induction false} JoinSnoc(parts: seq<string>, last: string, sep: string)
    requires |parts| >= 1
    ensures Join(parts + [last], sep) == Join(parts, sep) + sep + last
    decreases |parts|
  {
    var longer := parts + [last];
    if |parts| == 1 {
      assert longer[1..] == [last];
    } else {
      JoinSnoc(parts[1..], last, sep);
      assert longer[1..] == parts[1..] + [last];
    }
  }

  // ---------------------------------------------------------------- replacing

  /** `s.Replace(c, repl)` for a one-character pattern. */
  function ReplaceChar(s: string, c: char, repl: string): (r: string)
    ensures !Contains(s, c) ==> r == s
    decreases |s|
  {
    if |s| == 0 then ""
    else (if s[0] == c then repl else [s[0]]) + ReplaceChar(s[1..], c, repl)
  }

  /** Replacing a character by itself changes nothing. */
  lemma {:induction false} ReplaceByItself(s: string, c: char)
    ensures ReplaceChar(s, c, [c]) == s
    decreases |s|
  {
    if |s| > 0 {
      ReplaceByItself(s[1..], c);
      assert s == [s[0]] + s[1..];
    }
  }

  /** `s.Replace(pat, repl)` (ordinal): the occurrences of `pat`, found from
      left to right without overlapping, each replaced by `repl`. */
  function Replace(s: string, pat: string, repl: string): (r: string)
    requires |pat| > 0
    ensures (forall i :: 0 <= i < |s| ==> s[i] != pat[0]) ==> r == s
    decreases |s|
  {
    if |s| < |pat| then s
    else if s[..|pat|] == pat then repl + Replace(s[|pat|..], pat, repl)
    else [s[0]] + Replace(s[1..], pat, repl)
  }

  /** Joining sequences does not depend on grouping. */
  lemma Grouped<T>(a: seq<T>, b: seq<T>, c: seq<T>)
    ensures a + b + c == a + (b + c)
  {
  }

  /** Text before the first character of the pattern is kept as it is. */
  lemma {:induction false} ReplaceKeepsPrefix(a: string, b: string, pat: string, repl: string)
    requires |pat| > 0 && forall i :: 0 <= i < |a| ==> a[i] != pat[0]
    ensures Replace(a + b, pat, repl) == a + Replace(b, pat, repl)
    decreases |a|
  {
    if |a| > 0 {
      var s := a + b;
      assert s[0] == a[0];
      if |s| >= |pat| {
        assert s[..|pat|][0] == a[0];
      }
      assert s[1..] == a[1..] + b;
      ReplaceKeepsPrefix(a[1..], b, pat, repl);
      assert a == [a[0]] + a[1..];
      Grouped([a[0]], a[1..], Replace(b, pat, repl));
    } else {
      assert a + b == b;
    }
  }

  /** An occurrence at the start is replaced, and the search goes on after
      it. */
  lemma ReplaceAtStart(b: string, pat: string, repl: string)
    requires |pat| > 0
    ensures Replace(pat + b, pat, repl) == repl + Replace(b, pat, repl)
  {
    assert (pat + b)[..|pat|] == pat;
    assert (pat + b)[|pat|..] == b;
  }

  /** Replacing a pattern by itself changes nothing. */
  lemma {:induction false} ReplaceBySelf(s: string, pat: string)
    requires |pat| > 0
    ensures Replace(s, pat, pat) == s
    decreases |s|
  {
    if |s| >= |pat| {
      if s[..|pat|] == pat {
        ReplaceBySelf(s[|pat|..], pat);
        assert s == s[..|pat|] + s[|pat|..];
      } else {
        ReplaceBySelf(s[1..], pat);
        assert s == [s[0]] + s[1..];
      }
    }
  }
}
