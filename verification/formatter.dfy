/** `Formatter`: the delimiter styles tale text is marked up with. Each style
    wraps a value in its delimiters, and a regular expression recognises the
    wrapped value again: a non-empty run of characters, none of them one of
    the style's stop characters, with the opening delimiter just before it
    and the closing delimiter just after it. Neither delimiter is part of
    the match.

    Every closing delimiter starts with a stop character, so the regular
    expression's greedy run can never give characters back: a match is
    fixed by where it starts, and it ends where the run of non-stop
    characters ends. The leftmost match is the one the library returns. */
module Formatting {
  import opened Wrappers
  import opened Text

  // ------------------------------------------------------------------ styles

  /** `FormatStyle`. */
  datatype FormatStyle = Unset | C1 | C2 | C3 | C4 | C5 | C6 | C7 | C8 | C9

  /** The enumeration value of a style. */
  function StyleCode(s: FormatStyle): nat {
    match s
    case Unset => 0 case C1 => 1 case C2 => 2 case C3 => 3 case C4 => 4
    case C5 => 5 case C6 => 6 case C7 => 7 case C8 => 8 case C9 => 9
  }

  /** `Style()`: the style instance of an enumeration value; any value other
      than the ten defined ones has no mapper. */
  function Style(code: int): (r: Result<FormatStyle>)
    ensures r.Ok? <==> 0 <= code <= 9
    ensures r.Ok? ==> StyleCode(r.value) == code
    ensures r.Err? ==> r.error.MissingMapper?
  {
    if code == 0 then Ok(Unset)
    else if code == 1 then Ok(C1)
    else if code == 2 then Ok(C2)
    else if code == 3 then Ok(C3)
    else if code == 4 then Ok(C4)
    else if code == 5 then Ok(C5)
    else if code == 6 then Ok(C6)
    else if code == 7 then Ok(C7)
    else if code == 8 then Ok(C8)
    else if code == 9 then Ok(C9)
    else Err(MissingMapper("FormatStyle to IFormatStyle"))
  }

  /** Every style is reached from its own enumeration value. */
  lemma StyleRoundTrip(s: FormatStyle)
    ensures Style(StyleCode(s)) == Ok(s)
  {
  }

  // ---------------------------------------------------------------- patterns

  /** What a style's regular expression looks for: `open`, then a non-empty
      run of characters outside `stop`, then `close`. */
  datatype Framing = Framing(open: string, close: string, stop: set<char>)

  /** The expression of a one-character delimiter: `(?<=d)[^d]+(?=d)`. */
  function Single(d: char): Framing {
    Framing([d], [d], {d})
  }

  /** The expression of a doubled delimiter: `(?<=dd)[^d]+(?=dd)`. */
  function Double(d: char): Framing {
    Framing([d, d], [d, d], {d})
  }

  /** The legacy underline expression `(?<=<u>)[^<^>]+(?=</u>)`. */
  const Underline: Framing := Framing("<u>", "</u>", {'<', '^', '>'})

  /** The expression of each delimiter style; `Unset` has `.*` instead. */
  function FramingOf(s: FormatStyle): (f: Framing)
    requires s != Unset
    ensures |f.open| > 0 && |f.close| > 0 && f.close[0] in f.stop && f.open[0] in f.stop
    ensures forall c :: c in f.stop ==> Markup(c)
    ensures forall c :: c in f.open || c in f.close ==> c == f.open[0]
    ensures f.close == f.open
  {
    match s
    case C1 => Single('`')
    case C2 => Single('*')
    case C3 => Double('*')
    case C4 => Double('=')
    case C5 => Double('~')
    case C6 => Single('_')
    case C7 => Single('^')
    case C8 => Single('~')
    case C9 => Single('|')
  }

  // ---------------------------------------------------------------- matching

  /** The end of the run of characters outside `stop` that starts at `p`. */
  function RunEnd(s: string, p: nat, stop: set<char>): (q: nat)
    requires p <= |s|
    ensures p <= q <= |s|
    ensures forall i :: p <= i < q ==> s[i] !in stop
    ensures q < |s| ==> s[q] in stop
    decreases |s| - p
  {
    if p == |s| || s[p] in stop then p else RunEnd(s, p + 1, stop)
  }

  /** The expression matches starting at `p`. */
  predicate MatchesAt(s: string, f: Framing, p: nat) {
    |f.open| <= p < |s| && s[p - |f.open|..p] == f.open && s[p] !in f.stop &&
    StartsWith(s[RunEnd(s, p, f.stop)..], f.close)
  }

  /** The leftmost match at or after `p`. */
  function FindFrom(s: string, f: Framing, p: nat): (r: Option<nat>)
    ensures r.Some? ==> p <= r.value && MatchesAt(s, f, r.value)
    ensures r.Some? ==> forall i :: p <= i < r.value ==> !MatchesAt(s, f, i)
    ensures r.None? ==> forall i :: p <= i ==> !MatchesAt(s, f, i)
    decreases |s| - p
  {
    if p >= |s| then None
    else if MatchesAt(s, f, p) then Some(p)
    else FindFrom(s, f, p + 1)
  }

  /** `Regex.IsMatch`. */
  predicate IsMatch(s: string, f: Framing) {
    FindFrom(s, f, 0).Some?
  }

  /** `Regex.Match(s).Value` of a string the expression matches. */
  function MatchValue(s: string, f: Framing): string
    requires IsMatch(s, f)
  {
    var p := FindFrom(s, f, 0).value;
    s[p..RunEnd(s, p, f.stop)]
  }

  /** A run of characters outside `stop`, from `i` to `j`, with `open` just
      before it and `close` just after it. */
  predicate Framed(s: string, f: Framing, i: nat, j: nat) {
    |f.open| <= i < j && j + |f.close| <= |s| &&
    s[i - |f.open|..i] == f.open && s[j..j + |f.close|] == f.close &&
    forall k :: i <= k < j ==> s[k] !in f.stop
  }

  /** The expression matches exactly when the string holds a framed run. */
  lemma IsMatchIffFramed(s: string, f: Framing)
    requires |f.close| > 0 && f.close[0] in f.stop
    ensures IsMatch(s, f) <==> exists i, j :: Framed(s, f, i, j)
  {
    if IsMatch(s, f) {
      var p := FindFrom(s, f, 0).value;
      assert Framed(s, f, p, RunEnd(s, p, f.stop));
    }
    if exists i, j :: Framed(s, f, i, j) {
      var i, j :| Framed(s, f, i, j);
      RunStopsAtClose(s, f, i, j);
      assert MatchesAt(s, f, i);
    }
  }

  /** The match of a framed run is the run itself. */
  lemma RunStopsAtClose(s: string, f: Framing, i: nat, j: nat)
    requires |f.close| > 0 && f.close[0] in f.stop
    requires Framed(s, f, i, j)
    ensures RunEnd(s, i, f.stop) == j
  {
    assert s[j] == f.close[0];
  }

  /** `.*`: the text up to the first line break. */
  function FirstLine(s: string): (r: string)
    ensures r == s[..RunEnd(s, 0, {'\n'})]
  {
    s[..RunEnd(s, 0, {'\n'})]
  }

  // ------------------------------------------------------------- operations

  /** `IsInFormat`: null is never in format; `Unset` takes any text, and C6
      takes either its own delimiters or the legacy underline tags. */
  function IsInFormat(st: FormatStyle, value: Option<string>): (r: bool)
    ensures value.None? ==> !r
    ensures value.Some? && st == Unset ==> r
    ensures value.Some? && st != Unset ==>
      (r <==> IsMatch(value.value, FramingOf(st)) || (st == C6 && IsMatch(value.value, Underline)))
  {
    match value
    case None => false
    case Some(v) =>
      if st == Unset then true
      else IsMatch(v, FramingOf(st)) || (st == C6 && IsMatch(v, Underline))
  }

  /** `Trim`: the first match, trimmed; a value with no match is returned as
      it is, and null stays null. C6 looks for its own delimiters before the
      legacy tags. */
  function Trim(st: FormatStyle, value: Option<string>): (r: Option<string>)
    ensures value.None? <==> r.None?
    ensures value.Some? && !IsInFormat(st, value) ==> r == value
    ensures value.Some? && st != Unset && IsMatch(value.value, FramingOf(st)) ==>
      r == Some(Text.Trim(MatchValue(value.value, FramingOf(st))))
    ensures value.Some? && st == Unset ==> r == Some(Text.Trim(FirstLine(value.value)))
  {
    match value
    case None => None
    case Some(v) =>
      if st == Unset then Some(Text.Trim(FirstLine(v)))
      else if IsMatch(v, FramingOf(st)) then Some(Text.Trim(MatchValue(v, FramingOf(st))))
      else if st == C6 && IsMatch(v, Underline) then Some(Text.Trim(MatchValue(v, Underline)))
      else value
  }

  /** `Format`: the value between the style's delimiters (the legacy tags for
      C6 when the old format is asked for); null stays null. */
  function Format(st: FormatStyle, value: Option<string>, newFormat: bool): (r: Option<string>)
    ensures value.None? <==> r.None?
    ensures value.Some? && st == Unset ==> r == value
    ensures value.Some? && st == C6 ==> r == Some(if newFormat then "_" + value.value + "_" else "<u>" + value.value + "</u>")
  {
    match value
    case None => None
    case Some(v) =>
      if st == Unset then Some(v)
      else
        var f := if st == C6 && !newFormat then Underline else FramingOf(st);
        Some(f.open + v + f.close)
  }

  /** `Format(int?)`: the number in decimal, formatted. */
  function FormatNumber(st: FormatStyle, value: Option<int>, newFormat: bool): (r: Option<string>)
    ensures value.None? <==> r.None?
  {
    Format(st, if value.Some? then Some(IntToString(value.value)) else None, newFormat)
  }

  /** `FormatWithCondition`. */
  function FormatWithCondition(condition: bool, trueStyle: FormatStyle, falseStyle: FormatStyle,
                               value: Option<string>, newFormat: bool): (r: Option<string>)
    ensures value.None? <==> r.None?
  {
    Format(if condition then trueStyle else falseStyle, value, newFormat)
  }

  /** The order in which styles are recognised: the doubled delimiters before
      the single ones that share their character. */
  const Order: seq<FormatStyle> := [C3, C4, C5, C1, C2, C6, C7, C8, C9]

  /** `GetFormat`: the first style in `Order` the text is in, or `Unset`. */
  function GetFormat(s: string): (r: FormatStyle)
    ensures r == Unset <==> forall i :: 0 <= i < |Order| ==> !IsInFormat(Order[i], Some(s))
    ensures r != Unset ==> IsInFormat(r, Some(s))
  {
    var k := FirstHit(Order, s);
    if k < |Order| then Order[k] else Unset
  }

  /** The position of the first style the text is in, or the number of
      styles when it is in none. */
  function FirstHit(styles: seq<FormatStyle>, s: string): (k: nat)
    ensures k <= |styles|
    ensures forall i :: 0 <= i < k ==> !IsInFormat(styles[i], Some(s))
    ensures k < |styles| ==> IsInFormat(styles[k], Some(s))
  {
    if |styles| == 0 then 0
    else if IsInFormat(styles[0], Some(s)) then 0
    else
      var k := FirstHit(styles[1..], s);
      assert forall i :: 1 <= i < |styles| ==> styles[i] == styles[1..][i - 1];
      1 + k
  }

  /** `TrimFormatting`: each style in `Order` in turn trims the text when the
      text is in it. */
  function TrimFormatting(value: Option<string>): (r: Option<string>)
    ensures value.None? <==> r.None?
  {
    match value
    case None => None
    case Some(v) => Some(TrimEach(Order, v))
  }

  function TrimEach(styles: seq<FormatStyle>, t: string): string {
    if |styles| == 0 then t else TrimEach(styles[1..], TrimStep(styles[0], t))
  }

  /** One style's turn in `TrimFormatting`. */
  function TrimStep(st: FormatStyle, t: string): (r: string)
    ensures !IsInFormat(st, Some(t)) ==> r == t
    ensures IsInFormat(st, Some(t)) ==> Some(r) == Trim(st, Some(t))
  {
    if IsInFormat(st, Some(t)) then Trim(st, Some(t)).value else t
  }

  // ---------------------------------------------------------- modifiers

  /** `{value:+0;-#}`: an explicit sign, then the digits. */
  function SignedText(value: int): (r: string)
    requires value != 0
    ensures |r| >= 2 && r[0] == (if value > 0 then '+' else '-') && AllDigits(r[1..])
    ensures DigitsValue(r[1..]) == if value > 0 then value else -value
  {
    var digits := NatToString(if value > 0 then value else -value);
    NatToStringValue(if value > 0 then value else -value);
    assert ([if value > 0 then '+' else '-'] + digits)[1..] == digits;
    [if value > 0 then '+' else '-'] + digits
  }

  /** The style of a modifier: C8 when its sign is the good one, C7
      otherwise. */
  function ModifierStyle(value: int, negativeBad: bool): FormatStyle {
    if value == 0 then C3 else if (value > 0) != negativeBad then C8 else C7
  }

  /** `FormatModifier`: zero as "**0**"; any other value signed, in C8 when
      it is positive and negatives are bad (or negative and they are not),
      in C7 otherwise. */
  function FormatModifier(value: int, negativeBad: bool): (r: string)
    ensures value == 0 ==> r == "**0**"
  {
    if value == 0 then Format(C3, Some("0"), true).value
    else Format(ModifierStyle(value, negativeBad), Some(SignedText(value)), true).value
  }

  // ------------------------------------------------------------ round trips

  /** The characters the styles' expressions react to, and the line break. */
  predicate Markup(c: char) {
    c in {'`', '*', '=', '~', '_', '<', '>', '^', '|', '\n'}
  }

  /** Text that survives formatting unchanged: non-empty, trimmed and free
      of markup. */
  predicate Bare(v: string) {
    |v| > 0 && IsTrimmed(v) && forall i :: 0 <= i < |v| ==> !Markup(v[i])
  }

  /** A bare value between a framing's delimiters is matched, and the
      match is the value. */
  lemma WrappedMatch(f: Framing, v: string)
    requires |f.close| > 0 && f.close[0] in f.stop
    requires |v| > 0 && forall i :: 0 <= i < |v| ==> v[i] !in f.stop
    ensures IsMatch(f.open + v + f.close, f) && MatchValue(f.open + v + f.close, f) == v
  {
    var w := f.open + v + f.close;
    var p := |f.open|;
    assert w[p - |f.open|..p] == f.open;
    assert w[p + |v|..p + |v| + |f.close|] == f.close;
    assert Framed(w, f, p, p + |v|);
    RunStopsAtClose(w, f, p, p + |v|);
    assert w[p + |v|..] == f.close;
    assert MatchesAt(w, f, p);
    var r := FindFrom(w, f, 0);
    assert r.Some? && r.value == p;
    assert w[p..p + |v|] == v;
  }

  /** Text without the first character of a framing's opening delimiter is
      never matched. */
  lemma MissWithout(s: string, f: Framing)
    requires |f.open| > 0
    requires forall i :: 0 <= i < |s| ==> s[i] != f.open[0]
    ensures !IsMatch(s, f)
  {
    forall p: nat | p < |s|
      ensures !MatchesAt(s, f, p)
    {
      if |f.open| <= p {
        assert s[p - |f.open|..p][0] == s[p - |f.open|];
      }
    }
  }

  /** A value between single delimiters holds no doubled delimiter. */
  lemma MissDouble(d: char, v: string)
    requires |v| > 0 && forall i :: 0 <= i < |v| ==> v[i] != d
    ensures !IsMatch([d] + v + [d], Double(d))
  {
    var w := [d] + v + [d];
    forall p: nat | p < |w|
      ensures !MatchesAt(w, Double(d), p)
    {
      if 2 <= p {
        assert w[p - 2..p] == [w[p - 2], w[p - 1]];
        if p == 2 {
          assert w[1] == v[0];
        } else {
          assert w[p - 2] == v[p - 3];
        }
      }
    }
  }

  /** Each character of a wrapped value comes from a delimiter or from the
      value. */
  lemma WrappedChars(open: string, v: string, close: string)
    ensures forall i :: 0 <= i < |open + v + close| ==>
      (open + v + close)[i] in open || (open + v + close)[i] in close || (open + v + close)[i] in v
  {
  }

  /** The framing a formatted value is recognised by. */
  function Wrapping(st: FormatStyle, newFormat: bool): Framing
    requires st != Unset
  {
    if st == C6 && !newFormat then Underline else FramingOf(st)
  }

  /** A bare value, formatted, is in the style and trims back to itself. */
  lemma TrimReadsBack(st: FormatStyle, v: string, newFormat: bool)
    requires Bare(v)
    ensures IsInFormat(st, Format(st, Some(v), newFormat))
    ensures Trim(st, Format(st, Some(v), newFormat)) == Some(v)
  {
    if st == Unset {
      UnsetReadsBack(v);
    } else {
      WrappedReadsBack(st, v, newFormat);
    }
  }

  /** Without a style, a bare value is its own first line. */
  lemma UnsetReadsBack(v: string)
    requires Bare(v)
    ensures IsInFormat(Unset, Some(v)) && Trim(Unset, Some(v)) == Some(v)
  {
    TrimIdentity(v);
    assert RunEnd(v, 0, {'\n'}) == |v|;
    assert FirstLine(v) == v;
  }

  /** A bare value wrapped in a style's delimiters matches the style and
      trims back to itself. */
  lemma WrappedReadsBack(st: FormatStyle, v: string, newFormat: bool)
    requires Bare(v) && st != Unset
    ensures IsInFormat(st, Format(st, Some(v), newFormat))
    ensures Trim(st, Format(st, Some(v), newFormat)) == Some(v)
  {
    if st == C6 && !newFormat {
      LegacyReadsBack(v);
    } else {
      TrimIdentity(v);
      var f := FramingOf(st);
      assert Format(st, Some(v), newFormat) == Some(f.open + v + f.close);
      WrappedMatch(f, v);
    }
  }

  /** A bare value in legacy underline tags is not in the underline
      delimiters' form, so it is matched by the legacy expression and trims
      back to itself. */
  lemma LegacyReadsBack(v: string)
    requires Bare(v)
    ensures IsInFormat(C6, Format(C6, Some(v), false))
    ensures Trim(C6, Format(C6, Some(v), false)) == Some(v)
  {
    TrimIdentity(v);
    var w := Underline.open + v + Underline.close;
    assert Format(C6, Some(v), false) == Some(w);
    WrappedMatch(Underline, v);
    LegacyHasNoDelimiter(v);
  }

  /** Legacy underline tags around a bare value hold no underline
      delimiter. */
  lemma LegacyHasNoDelimiter(v: string)
    requires Bare(v)
    ensures !IsMatch(Underline.open + v + Underline.close, FramingOf(C6))
  {
    var w := Underline.open + v + Underline.close;
    forall i | 0 <= i < |w|
      ensures w[i] != '_'
    {
      if i < 3 {
        assert w[i] == Underline.open[i];
      } else if i < 3 + |v| {
        assert w[i] == v[i - 3];
        assert !Markup(v[i - 3]);
      } else {
        assert w[i] == Underline.close[i - 3 - |v|];
      }
    }
    MissWithout(w, FramingOf(C6));
  }

  /** The place of a style in `Order`; `Unset` comes after all of them. */
  function Rank(st: FormatStyle): (r: nat)
    ensures st != Unset ==> r < |Order| && Order[r] == st
    ensures st == Unset ==> r == |Order|
  {
    match st
    case C3 => 0 case C4 => 1 case C5 => 2 case C1 => 3 case C2 => 4
    case C6 => 5 case C7 => 6 case C8 => 7 case C9 => 8 case Unset => 9
  }

  /** The delimiter characters a style wraps a value in. */
  function Delimiters(x: FormatStyle, newFormat: bool): string {
    if x == Unset then "" else Wrapping(x, newFormat).open + Wrapping(x, newFormat).close
  }

  /** A style whose opening character is not among the delimiters a bare
      value was formatted with does not recognise it. */
  lemma MissOutsideDelimiters(x: FormatStyle, y: FormatStyle, v: string, newFormat: bool)
    requires Bare(v) && y != Unset
    requires FramingOf(y).open[0] !in Delimiters(x, newFormat)
    requires y == C6 ==> '<' !in Delimiters(x, newFormat)
    ensures !IsInFormat(y, Format(x, Some(v), newFormat))
  {
    var w := Format(x, Some(v), newFormat).value;
    if x == Unset {
      assert w == v;
    } else {
      var f := Wrapping(x, newFormat);
      assert w == f.open + v + f.close;
      WrappedChars(f.open, v, f.close);
    }
    MissWithout(w, FramingOf(y));
    if y == C6 {
      MissWithout(w, Underline);
    }
  }

  /** No style recognised before `x` recognises a bare value formatted in
      `x`: a doubled delimiter is not found around a single one, and every
      other earlier style opens with a character the formatted value lacks. */
  lemma EarlierMiss(x: FormatStyle, y: FormatStyle, v: string, newFormat: bool)
    requires Bare(v)
    requires y != Unset && Rank(y) < Rank(x)
    ensures !IsInFormat(y, Format(x, Some(v), newFormat))
  {
    if x == C2 && y == C3 {
      assert Format(x, Some(v), newFormat).value == ['*'] + v + ['*'];
      MissDouble('*', v);
    } else if x == C8 && y == C5 {
      assert Format(x, Some(v), newFormat).value == ['~'] + v + ['~'];
      MissDouble('~', v);
    } else {
      MissOutsideDelimiters(x, y, v, newFormat);
    }
  }

  /** `GetFormat` gives the style of the first entry of `Order` a text is
      in: a style is the answer exactly when the text is in it and in none
      of the styles before it. */
  lemma GetFormatIsFirstHit(s: string, x: FormatStyle)
    requires forall i :: 0 <= i < Rank(x) ==> !IsInFormat(Order[i], Some(s))
    requires x != Unset ==> IsInFormat(x, Some(s))
    ensures GetFormat(s) == x
  {
    var k := FirstHit(Order, s);
    assert k <= Rank(x);
    assert Rank(x) <= k;
  }

  /** `GetFormat` recognises the style a bare value was formatted in. */
  lemma GetFormatReadsBack(x: FormatStyle, v: string, newFormat: bool)
    requires Bare(v)
    ensures GetFormat(Format(x, Some(v), newFormat).value) == x
  {
    var w := Format(x, Some(v), newFormat).value;
    forall i | 0 <= i < Rank(x)
      ensures !IsInFormat(Order[i], Some(w))
    {
      EarlierMiss(x, Order[i], v, newFormat);
    }
    TrimReadsBack(x, v, newFormat);
    GetFormatIsFirstHit(w, x);
  }

  /** Styles a text is in none of leave it as it is. */
  lemma {:induction false} TrimEachSkips(styles: seq<FormatStyle>, t: string)
    requires forall i :: 0 <= i < |styles| ==> TrimStep(styles[i], t) == t
    ensures TrimEach(styles, t) == t
    decreases |styles|
  {
    if |styles| > 0 {
      assert forall i :: 0 <= i < |styles[1..]| ==> styles[1..][i] == styles[i + 1];
      TrimEachSkips(styles[1..], t);
    }
  }

  /** Trimming by a run of styles where only the `k`-th recognises the
      text, and none recognises what it trims the text to, is trimming by
      that style alone. */
  lemma {:induction false} TrimEachHit(styles: seq<FormatStyle>, k: nat, w: string, v: string)
    requires k < |styles|
    requires forall i :: 0 <= i < k ==> TrimStep(styles[i], w) == w
    requires TrimStep(styles[k], w) == v
    requires forall i :: k < i < |styles| ==> TrimStep(styles[i], v) == v
    ensures TrimEach(styles, w) == v
    decreases k
  {
    assert forall i :: 0 <= i < |styles[1..]| ==> styles[1..][i] == styles[i + 1];
    if k == 0 {
      TrimEachSkips(styles[1..], v);
    } else {
      TrimEachHit(styles[1..], k - 1, w, v);
    }
  }

  /** No delimiter style recognises a bare value. */
  lemma BareMisses(y: FormatStyle, v: string)
    requires Bare(v) && y != Unset
    ensures !IsInFormat(y, Some(v))
  {
    MissOutsideDelimiters(Unset, y, v, true);
  }

  /** `TrimFormatting` leaves a bare value alone. */
  lemma TrimFormattingKeepsBare(v: string)
    requires Bare(v)
    ensures TrimEach(Order, v) == v
  {
    forall i | 0 <= i < |Order|
      ensures TrimStep(Order[i], v) == v
    {
      BareMisses(Order[i], v);
    }
    TrimEachSkips(Order, v);
  }

  /** Only the style a bare value was formatted in trims it, back to the
      value. */
  lemma TrimFormattingUnwraps(x: FormatStyle, v: string, newFormat: bool)
    requires Bare(v) && x != Unset
    ensures TrimEach(Order, Format(x, Some(v), newFormat).value) == v
  {
    var w := Format(x, Some(v), newFormat).value;
    forall i | 0 <= i < Rank(x)
      ensures TrimStep(Order[i], w) == w
    {
      EarlierMiss(x, Order[i], v, newFormat);
    }
    forall i | Rank(x) < i < |Order|
      ensures TrimStep(Order[i], v) == v
    {
      BareMisses(Order[i], v);
    }
    TrimReadsBack(x, v, newFormat);
    assert TrimStep(Order[Rank(x)], w) == v;
    TrimEachHit(Order, Rank(x), w, v);
  }

  /** `TrimFormatting` undoes `Format` on a bare value, whatever the style. */
  lemma TrimFormattingReadsBack(x: FormatStyle, v: string, newFormat: bool)
    requires Bare(v)
    ensures TrimFormatting(Format(x, Some(v), newFormat)) == Some(v)
  {
    if x == Unset {
      TrimFormattingKeepsBare(v);
    } else {
      TrimFormattingUnwraps(x, v, newFormat);
    }
  }

  /** A signed number is bare text. */
  lemma SignedTextIsBare(value: int)
    requires value != 0
    ensures Bare(SignedText(value))
  {
    var r := SignedText(value);
    forall i | 0 <= i < |r|
      ensures !Markup(r[i])
    {
      if i > 0 {
        assert r[i] == r[1..][i - 1];
      }
    }
    assert r[|r| - 1] == r[1..][|r| - 2];
  }

  /** A formatted modifier is recognised in the style its sign and
      `negativeBad` choose, and trimming its formatting gives back the
      signed number ("0" for zero). */
  lemma ModifierReadsBack(value: int, negativeBad: bool)
    ensures GetFormat(FormatModifier(value, negativeBad)) == ModifierStyle(value, negativeBad)
    ensures TrimFormatting(Some(FormatModifier(value, negativeBad))) ==
      Some(if value == 0 then "0" else SignedText(value))
  {
    var st := ModifierStyle(value, negativeBad);
    var text := if value == 0 then "0" else SignedText(value);
    if value == 0 {
      assert Bare("0");
    } else {
      SignedTextIsBare(value);
    }
    assert FormatModifier(value, negativeBad) == Format(st, Some(text), true).value;
    GetFormatReadsBack(st, text, true);
    TrimFormattingReadsBack(st, text, true);
  }

  /** `FormatWithCondition` on a bare value is recognised in the style its
      condition chose, and trims back to the value. */
  lemma ConditionReadsBack(condition: bool, trueStyle: FormatStyle, falseStyle: FormatStyle, v: string, newFormat: bool)
    requires Bare(v)
    ensures GetFormat(FormatWithCondition(condition, trueStyle, falseStyle, Some(v), newFormat).value) ==
      (if condition then trueStyle else falseStyle)
    ensures TrimFormatting(FormatWithCondition(condition, trueStyle, falseStyle, Some(v), newFormat)) == Some(v)
  {
    GetFormatReadsBack(if condition then trueStyle else falseStyle, v, newFormat);
    TrimFormattingReadsBack(if condition then trueStyle else falseStyle, v, newFormat);
  }

  /** A formatted number is recognised in its style, and trimming its
      formatting gives text that parses back to the number. */
  lemma NumberReadsBack(st: FormatStyle, n: int, newFormat: bool)
    ensures GetFormat(FormatNumber(st, Some(n), newFormat).value) == st
    ensures ParseInt(TrimFormatting(FormatNumber(st, Some(n), newFormat)).value) == Some(n)
  {
    var t := IntToString(n);
    forall i | 0 <= i < |t|
      ensures !Markup(t[i])
    {
      if n < 0 && i > 0 {
        assert t[i] == t[1..][i - 1];
      }
    }
    if n < 0 {
      assert t[|t| - 1] == t[1..][|t| - 2];
    }
    assert Bare(t);
    GetFormatReadsBack(st, t, newFormat);
    TrimFormattingReadsBack(st, t, newFormat);
    IntStringRoundTrip(n);
  }
}
