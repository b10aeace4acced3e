/** `FormattedTextHelper`: how the desktop client turns a line of formatted
    tale text into display elements. A line is read one character at a
    time: plain characters gather into a run, and a delimiter opens a span
    that ends at the next occurrence of the same delimiter. The text in
    between is read again, recursively, as the span's content.

    The delimiters are the opening delimiters of the formatter's styles, so
    a span is recorded with the style it was written in. The display
    element a span gets (a brush per style) is left to the user interface. */
module Inlines {
  import opened Wrappers
  import opened Text
  import opened Formatting

  /** A display element: a run of plain text, or a span in a style holding
      the elements its tags enclose. */
  datatype Inline = Run(text: string) | Span(style: FormatStyle, children: seq<Inline>)

  /** The tag that opens and closes a span of a style: the style's opening
      delimiter. `Unset` has none. */
  function Tag(st: FormatStyle): (t: string)
    ensures st != Unset ==> |t| > 0 && t == FramingOf(st).open
    ensures st == Unset ==> t == ""
  {
    if st == Unset then "" else FramingOf(st).open
  }

  /** The exception of an opening tag that is never closed. */
  const Unclosed: Fault := InvalidOperation("Tag did not end, seems invalid")

  /** The exception of a tag closed straight after it was opened. */
  const EmptySection: Fault := InvalidOperation("Tagged text seems to be empty")

  // ------------------------------------------------------------------ parsing

  /** The style a tag at position `i` opens, if any. A star or a tilde opens
      the doubled style when the next character repeats it; an equals sign
      opens a span only when doubled and is plain text on its own. */
  function Opener(line: string, i: nat): (r: Option<FormatStyle>)
    requires i < |line|
    ensures r.Some? ==> r.value != Unset && OccursAt(line, Tag(r.value), i)
  {
    var c := line[i];
    var doubled := i < |line| - 1 && line[i + 1] == c;
    if c == '^' then Some(C7)
    else if c == '*' then Some(if doubled then C3 else C2)
    else if c == '~' then Some(if doubled then C5 else C8)
    else if c == '=' then (if doubled then Some(C4) else None)
    else if c == '_' then Some(C6)
    else if c == '|' then Some(C9)
    else if c == '`' then Some(C1)
    else None
  }

  /** The plain text gathered so far, as a run when there is any. */
  function Flush(text: string): (r: seq<Inline>)
    ensures |text| == 0 <==> r == []
  {
    if |text| == 0 then [] else [Run(text)]
  }

  /** `FindInlines`: the elements of a line, or the exception its markup
      raises. Empty text has no elements. What a line parses into writes the
      line again: every character is either in a run or part of a tag the
      parser consumed. The elements are well formed, and only empty text
      yields none. */
  function FindInlines(line: string): (r: Result<seq<Inline>>)
    ensures r.Ok? ==> Render(r.value) == line && WellFormed(r.value)
    ensures r.Ok? ==> (r.value == [] <==> |line| == 0)
    decreases |line|, 1
  {
    if |line| == 0 then Ok([])
    else
      assert line[0..] == line;
      Scan(line, 0, "")
  }

  /** The reading loop from position `i`, with `text` the plain text
      gathered and not yet emitted. What the loop builds writes the
      gathered text and the rest of the line. */
  function Scan(line: string, i: nat, text: string): (r: Result<seq<Inline>>)
    requires i <= |line|
    ensures r.Ok? ==> Render(r.value) == text + line[i..] && WellFormed(r.value)
    decreases |line|, 0, |line| - i, 2
  {
    if i == |line| then
      RenderFlush(text);
      Ok(Flush(text))
    else
      match Opener(line, i)
      case None =>
        assert (text + [line[i]]) + line[i + 1..] == text + line[i..];
        Scan(line, i + 1, text + [line[i]])
      case Some(st) => Tagged(line, i, text, st)
  }

  /** A tagged section opening at `i`: it ends at the next occurrence of
      its tag, and must not be empty. */
  function Tagged(line: string, i: nat, text: string, st: FormatStyle): (r: Result<seq<Inline>>)
    requires i < |line| && st != Unset && OccursAt(line, Tag(st), i)
    ensures r.Ok? ==> Render(r.value) == text + line[i..] && WellFormed(r.value)
    decreases |line|, 0, |line| - i, 1
  {
    var start := i + |Tag(st)|;
    match IndexOf(line, Tag(st), start)
    case None => Err(Unclosed)
    case Some(end) =>
      if end == start then Err(EmptySection)
      else Closed(line, i, text, st, end)
  }

  /** A tagged section opening at `i` and closed by the tag at `end`. Its
      content is read before the rest of the line, so an exception inside
      it is the one raised. */
  function Closed(line: string, i: nat, text: string, st: FormatStyle, end: nat): (r: Result<seq<Inline>>)
    requires st != Unset && i + |Tag(st)| < end && end + |Tag(st)| <= |line|
    requires OccursAt(line, Tag(st), i) && OccursAt(line, Tag(st), end)
    ensures r.Ok? ==> Render(r.value) == text + line[i..] && WellFormed(r.value)
    decreases |line|, 0, |line| - i, 0
  {
    var inner :- FindInlines(line[i + |Tag(st)|..end]);
    var rest :- Scan(line, end + |Tag(st)|, "");
    SpanRenders(line, i, text, st, end, inner, rest);
    SoundJoin(text, Span(st, inner), rest);
    Ok(Flush(text) + [Span(st, inner)] + rest)
  }

  // ------------------------------------------------------------ the elements

  /** The markup that writes a list of elements: each span's content between
      two copies of its tag. */
  function Render(xs: seq<Inline>): string
    decreases xs
  {
    if |xs| == 0 then "" else RenderOne(xs[0]) + Render(xs[1..])
  }

  function RenderOne(x: Inline): string
    decreases x
  {
    match x
    case Run(t) => t
    case Span(st, cs) => Tag(st) + Render(cs) + Tag(st)
  }

  /** The text a reader sees: the runs' text, without any tag. */
  function PlainText(xs: seq<Inline>): string
    decreases xs
  {
    if |xs| == 0 then "" else PlainOne(xs[0]) + PlainText(xs[1..])
  }

  function PlainOne(x: Inline): string
    decreases x
  {
    match x
    case Run(t) => t
    case Span(_, cs) => PlainText(cs)
  }

  /** The number of tag characters the elements' markup holds. */
  function TagChars(xs: seq<Inline>): nat
    decreases xs
  {
    if |xs| == 0 then 0 else TagCharsOne(xs[0]) + TagChars(xs[1..])
  }

  function TagCharsOne(x: Inline): nat
    decreases x
  {
    match x
    case Run(_) => 0
    case Span(st, cs) => 2 * |Tag(st)| + TagChars(cs)
  }

  /** Elements as the parser builds them: runs are never empty and never
      follow each other, and every span has a style and content, itself
      well formed. */
  predicate WellFormed(xs: seq<Inline>)
    decreases xs
  {
    forall k :: 0 <= k < |xs| ==> Sound(xs[k]) && (xs[k].Run? && k + 1 < |xs| ==> xs[k + 1].Span?)
  }

  predicate Sound(x: Inline)
    decreases x
  {
    match x
    case Run(t) => |t| > 0
    case Span(st, cs) => st != Unset && |cs| > 0 && WellFormed(cs)
  }

  /** Text no tag can start in. */
  predicate Plain(t: string) {
    forall k :: 0 <= k < |t| ==> !Markup(t[k])
  }

  // ---------------------------------------------------------------- the tags

  /** Where a tag starts, the longest tag there opens, and a character no
      tag starts with is plain text. */
  lemma OpenerIsLongestTag(line: string, i: nat, st: FormatStyle)
    requires i < |line| && st != Unset && OccursAt(line, Tag(st), i)
    ensures Opener(line, i).Some?
    ensures |Tag(st)| <= |Tag(Opener(line, i).value)|
    ensures |Tag(st)| == |Tag(Opener(line, i).value)| ==> Opener(line, i) == Some(st)
  {
    assert line[i] == Tag(st)[0] by {
      assert line[i..i + |Tag(st)|][0] == line[i];
    }
    if |Tag(st)| == 2 {
      assert line[i + 1] == line[i..i + |Tag(st)|][1];
    }
  }

  /** A character that is not markup opens nothing. */
  lemma PlainOpensNothing(line: string, i: nat)
    requires i < |line| && !Markup(line[i])
    ensures Opener(line, i).None?
  {
  }

  // -------------------------------------------------------------- read back

  lemma {:induction false} RenderConcat(a: seq<Inline>, b: seq<Inline>)
    ensures Render(a + b) == Render(a) + Render(b)
    decreases |a|
  {
    if |a| == 0 {
      assert a + b == b;
    } else {
      assert (a + b)[0] == a[0] && (a + b)[1..] == a[1..] + b;
      RenderConcat(a[1..], b);
    }
  }

  /** The markup of a run and a span. */
  lemma RenderPiece(text: string, st: FormatStyle, inner: seq<Inline>, rest: seq<Inline>)
    ensures Render(Flush(text) + [Span(st, inner)] + rest) == text + (Tag(st) + Render(inner) + Tag(st) + Render(rest))
  {
    var sp := Span(st, inner);
    var wrapped := Tag(st) + Render(inner) + Tag(st);
    assert Render([sp]) == wrapped by {
      assert Render([sp]) == RenderOne(sp) + Render([]);
    }
    RenderFlush(text);
    RenderConcat(Flush(text), [sp]);
    RenderConcat(Flush(text) + [sp], rest);
    Grouped(text, wrapped, Render(rest));
  }

  lemma RenderFlush(text: string)
    ensures Render(Flush(text)) == text
  {
    if |text| > 0 {
      assert Render([Run(text)]) == RenderOne(Run(text)) + Render([]);
    }
  }

  /** The pieces of a line around a span. */
  lemma SpanSplit(line: string, i: nat, st: FormatStyle, end: nat)
    requires st != Unset && i + |Tag(st)| <= end && end + |Tag(st)| <= |line|
    requires OccursAt(line, Tag(st), i) && OccursAt(line, Tag(st), end)
    ensures line[i..] == Tag(st) + line[i + |Tag(st)|..end] + Tag(st) + line[end + |Tag(st)|..]
  {
  }

  /** The markup of a span read at `i`, followed by whatever comes after
      it, is the line from `i` on. */
  lemma SpanRenders(line: string, i: nat, text: string, st: FormatStyle, end: nat, inner: seq<Inline>, rest: seq<Inline>)
    requires st != Unset && i + |Tag(st)| <= end && end + |Tag(st)| <= |line|
    requires OccursAt(line, Tag(st), i) && OccursAt(line, Tag(st), end)
    requires Render(inner) == line[i + |Tag(st)|..end]
    requires Render(rest) == "" + line[end + |Tag(st)|..]
    ensures Render(Flush(text) + [Span(st, inner)] + rest) == text + line[i..]
  {
    RenderPiece(text, st, inner, rest);
    SpanSplit(line, i, st, end);
    assert "" + line[end + |Tag(st)|..] == line[end + |Tag(st)|..];
    assert Tag(st) + Render(inner) + Tag(st) + Render(rest) == line[i..];
  }

  /** The markup of elements is their plain text plus their tags. */
  lemma {:induction false} RenderLength(xs: seq<Inline>)
    ensures |Render(xs)| == |PlainText(xs)| + TagChars(xs)
    decreases xs
  {
    if |xs| > 0 {
      RenderOneLength(xs[0]);
      RenderLength(xs[1..]);
    }
  }

  lemma {:induction false} RenderOneLength(x: Inline)
    ensures |RenderOne(x)| == |PlainOne(x)| + TagCharsOne(x)
    decreases x
  {
    if x.Span? {
      RenderLength(x.children);
    }
  }

  /** The plain text of a parsed line is the line less the tags the parser
      consumed. */
  lemma PlainTextOfLine(line: string)
    requires FindInlines(line).Ok?
    ensures |PlainText(FindInlines(line).value)| == |line| - TagChars(FindInlines(line).value)
  {
    RenderLength(FindInlines(line).value);
  }

  // ------------------------------------------------------------ well formed

  lemma SoundJoin(text: string, sp: Inline, rest: seq<Inline>)
    requires sp.Span? && Sound(sp) && WellFormed(rest)
    ensures WellFormed(Flush(text) + [sp] + rest)
  {
    var xs := Flush(text) + [sp] + rest;
    var n := |Flush(text)|;
    forall k | 0 <= k < |xs|
      ensures Sound(xs[k]) && (xs[k].Run? && k + 1 < |xs| ==> xs[k + 1].Span?)
    {
      if k > n {
        assert xs[k] == rest[k - n - 1];
        if k + 1 < |xs| {
          assert xs[k + 1] == rest[k - n];
        }
      }
    }
  }

  // ------------------------------------------------------------ plain text

  /** Plain characters only gather: the reading moves past them. */
  lemma {:induction false} PlainRun(line: string, i: nat, j: nat, text: string)
    requires i <= j <= |line| && Plain(line[i..j])
    ensures Scan(line, i, text) == Scan(line, j, text + line[i..j])
    decreases j - i
  {
    if i == j {
      assert text + line[i..j] == text;
    } else {
      assert line[i] == line[i..j][0];
      PlainOpensNothing(line, i);
      assert line[i + 1..j] == line[i..j][1..];
      PlainRun(line, i + 1, j, text + [line[i]]);
      assert (text + [line[i]]) + line[i + 1..j] == text + line[i..j];
    }
  }

  /** A line without markup is one run. */
  lemma PlainLine(v: string)
    requires |v| > 0 && Plain(v)
    ensures FindInlines(v) == Ok([Run(v)])
  {
    assert v[0..|v|] == v;
    PlainRun(v, 0, |v|, "");
  }

  // ------------------------------------------------------------ the errors

  /** The style of a tag at `i`, when a single star or tilde is not
      followed by another. */
  lemma OpenerOfTag(line: string, i: nat, st: FormatStyle)
    requires st != Unset && OccursAt(line, Tag(st), i)
    requires (st == C2 || st == C8) && i + 1 < |line| ==> line[i + 1] != line[i]
    ensures Opener(line, i) == Some(st)
  {
    assert line[i] == line[i..i + |Tag(st)|][0];
    if |Tag(st)| == 2 {
      assert line[i + 1] == line[i..i + |Tag(st)|][1];
    }
  }

  /** The first character of every tag is markup. */
  lemma TagIsMarkup(st: FormatStyle)
    requires st != Unset
    ensures Markup(Tag(st)[0])
  {
  }

  /** A tag whose closing tag never follows raises the unclosed-tag
      exception. */
  lemma ScanUnclosed(line: string, i: nat, text: string, st: FormatStyle)
    requires i < |line| && Opener(line, i) == Some(st)
    requires IndexOf(line, Tag(st), i + |Tag(st)|).None?
    ensures Scan(line, i, text) == Err(Unclosed)
  {
    assert Scan(line, i, text) == Tagged(line, i, text, st);
  }

  /** A tag at `i` whose first character never comes again raises the
      unclosed-tag exception. */
  lemma UnclosedAt(line: string, i: nat, text: string, st: FormatStyle)
    requires st != Unset && OccursAt(line, Tag(st), i)
    requires (st == C2 || st == C8) && i + 1 < |line| ==> line[i + 1] != line[i]
    requires forall j :: i + |Tag(st)| <= j < |line| ==> line[j] != Tag(st)[0]
    ensures Scan(line, i, text) == Err(Unclosed)
  {
    OpenerOfTag(line, i, st);
    IndexOfAbsent(line, Tag(st), i + |Tag(st)|);
    ScanUnclosed(line, i, text, st);
  }

  /** Plain text, then a tag the rest of the line never closes: the line
      raises the unclosed-tag exception. */
  lemma UnclosedFails(p: string, st: FormatStyle, rest: string)
    requires st != Unset && Plain(p)
    requires forall k :: 0 <= k < |rest| ==> rest[k] != Tag(st)[0]
    ensures FindInlines(p + Tag(st) + rest) == Err(Unclosed)
  {
    var line := p + Tag(st) + rest;
    var start := |p| + |Tag(st)|;
    assert line[0..|p|] == p && "" + p == p;
    PlainRun(line, 0, |p|, "");
    assert line[|p|..start] == Tag(st);
    if (st == C2 || st == C8) && |p| + 1 < |line| {
      assert line[|p| + 1] == rest[0];
    }
    forall j | start <= j < |line|
      ensures line[j] != Tag(st)[0]
    {
      assert line[j] == rest[j - start];
    }
    UnclosedAt(line, |p|, p, st);
    assert FindInlines(line) == Scan(line, 0, "");
  }

  /** A tag closed straight after it opens raises the empty-section
      exception. (Two single stars or tildes in a row open the doubled
      style instead.) */
  lemma EmptySectionFails(p: string, st: FormatStyle, rest: string)
    requires st != Unset && st != C2 && st != C8 && Plain(p)
    ensures FindInlines(p + Tag(st) + Tag(st) + rest) == Err(EmptySection)
  {
    var line := p + Tag(st) + Tag(st) + rest;
    EmptyLayout(line, p, st, rest);
    PlainRun(line, 0, |p|, "");
    assert "" + line[0..|p|] == p;
    EmptyAt(line, |p|, p, st);
    assert FindInlines(line) == Scan(line, 0, "");
  }

  /** Where the parts of a line with an empty section lie. */
  lemma EmptyLayout(line: string, p: string, st: FormatStyle, rest: string)
    requires st != Unset && line == p + Tag(st) + Tag(st) + rest
    ensures line[0..|p|] == p
    ensures OccursAt(line, Tag(st), |p|) && OccursAt(line, Tag(st), |p| + |Tag(st)|)
  {
    var t := Tag(st);
    assert line[0..|p|] == p;
    assert line[|p|..|p| + |t|] == t;
    assert line[|p| + |t|..|p| + |t| + |t|] == t;
  }

  /** A tag at `i` followed at once by the same tag raises the
      empty-section exception. */
  lemma EmptyAt(line: string, i: nat, text: string, st: FormatStyle)
    requires st != Unset && st != C2 && st != C8
    requires OccursAt(line, Tag(st), i) && OccursAt(line, Tag(st), i + |Tag(st)|)
    ensures Scan(line, i, text) == Err(EmptySection)
  {
    OpenerOfTag(line, i, st);
    assert IndexOf(line, Tag(st), i + |Tag(st)|) == Some(i + |Tag(st)|);
    assert Scan(line, i, text) == Tagged(line, i, text, st);
  }

  // ----------------------------------------------------------- spans read back

  /** The closing tag of a span around plain text is the first one after
      it. */
  lemma ClosedAfter(line: string, st: FormatStyle, start: nat, v: string)
    requires st != Unset && Plain(v) && start + |v| <= |line|
    requires line[start..start + |v|] == v && OccursAt(line, Tag(st), start + |v|)
    ensures IndexOf(line, Tag(st), start) == Some(start + |v|)
  {
    TagIsMarkup(st);
    forall j | start <= j < start + |v|
      ensures !OccursAt(line, Tag(st), j)
    {
      assert line[j] == v[j - start];
      if j + |Tag(st)| <= |line| {
        assert line[j..j + |Tag(st)|][0] == line[j];
      }
    }
  }

  /** A span read at `i` whose content and remainder both parse. */
  lemma ScanSpan(line: string, i: nat, text: string, st: FormatStyle, end: nat, inner: seq<Inline>, ys: seq<Inline>)
    requires i < |line| && Opener(line, i) == Some(st)
    requires IndexOf(line, Tag(st), i + |Tag(st)|) == Some(end) && end > i + |Tag(st)|
    requires FindInlines(line[i + |Tag(st)|..end]) == Ok(inner) && Scan(line, end + |Tag(st)|, "") == Ok(ys)
    ensures Scan(line, i, text) == Ok(Flush(text) + [Span(st, inner)] + ys)
  {
    ScanOpens(line, i, text, st);
    TaggedCloses(line, i, text, st, end);
    ClosedSpan(line, i, text, st, end, inner, ys);
  }

  /** At a tag, the reading loop reads a tagged section. */
  lemma ScanOpens(line: string, i: nat, text: string, st: FormatStyle)
    requires i < |line| && Opener(line, i) == Some(st)
    ensures Scan(line, i, text) == Tagged(line, i, text, st)
  {
  }

  /** A tagged section is closed by the next occurrence of its tag. */
  lemma TaggedCloses(line: string, i: nat, text: string, st: FormatStyle, end: nat)
    requires i < |line| && st != Unset && OccursAt(line, Tag(st), i)
    requires IndexOf(line, Tag(st), i + |Tag(st)|) == Some(end) && end > i + |Tag(st)|
    ensures Tagged(line, i, text, st) == Closed(line, i, text, st, end)
  {
  }

  /** A closed section whose content and remainder both parse is a span. */
  lemma ClosedSpan(line: string, i: nat, text: string, st: FormatStyle, end: nat, inner: seq<Inline>, ys: seq<Inline>)
    requires st != Unset && i + |Tag(st)| < end && end + |Tag(st)| <= |line|
    requires OccursAt(line, Tag(st), i) && OccursAt(line, Tag(st), end)
    requires FindInlines(line[i + |Tag(st)|..end]) == Ok(inner) && Scan(line, end + |Tag(st)|, "") == Ok(ys)
    ensures Closed(line, i, text, st, end) == Ok(Flush(text) + [Span(st, inner)] + ys)
  {
  }

  /** The three parts of a stretch of a line made of `a`, `b` and `c`. */
  lemma Pieces(line: string, i: nat, a: string, b: string, c: string)
    requires i + |a| + |b| + |c| <= |line| && line[i..i + |a| + |b| + |c|] == a + b + c
    ensures line[i..i + |a|] == a
    ensures line[i + |a|..i + |a| + |b|] == b
    ensures line[i + |a| + |b|..i + |a| + |b| + |c|] == c
  {
    var w := a + b + c;
    forall k | 0 <= k < |w|
      ensures line[i + k] == w[k]
    {
      assert line[i..i + |w|][k] == line[i + k];
    }
    assert line[i..i + |a|] == a by {
      forall k | 0 <= k < |a|
        ensures line[i..i + |a|][k] == a[k]
      {
        assert w[k] == a[k];
      }
    }
    assert line[i + |a|..i + |a| + |b|] == b by {
      forall k | 0 <= k < |b|
        ensures line[i + |a|..i + |a| + |b|][k] == b[k]
      {
        assert w[|a| + k] == b[k];
      }
    }
    assert line[i + |a| + |b|..i + |a| + |b| + |c|] == c by {
      forall k | 0 <= k < |c|
        ensures line[i + |a| + |b|..i + |a| + |b| + |c|][k] == c[k]
      {
        assert w[|a| + |b| + k] == c[k];
      }
    }
  }

  /** What the reading finds at a span around plain text `v` written at
      `i` and closed at `end`: the span's style, its closing tag, and `v`
      between the tags. */
  lemma SpanFacts(line: string, i: nat, st: FormatStyle, v: string, end: nat)
    requires st != Unset && |v| > 0 && Plain(v)
    requires end == i + |Tag(st)| + |v| && end + |Tag(st)| <= |line| && line[i..end + |Tag(st)|] == Tag(st) + v + Tag(st)
    ensures Opener(line, i) == Some(st)
    ensures IndexOf(line, Tag(st), i + |Tag(st)|) == Some(end)
    ensures line[i + |Tag(st)|..end] == v
  {
    SpanPieces(line, i, st, v, end);
    SpanOpens(line, i, st, v);
    SpanCloses(line, i, st, v, end);
  }

  /** The opening tag, the text and the closing tag of a span written at
      `i` and closed at `end`. */
  lemma SpanPieces(line: string, i: nat, st: FormatStyle, v: string, end: nat)
    requires end == i + |Tag(st)| + |v| && end + |Tag(st)| <= |line| && line[i..end + |Tag(st)|] == Tag(st) + v + Tag(st)
    ensures line[i..i + |Tag(st)|] == Tag(st)
    ensures line[i + |Tag(st)|..end] == v
    ensures OccursAt(line, Tag(st), end)
  {
    Pieces(line, i, Tag(st), v, Tag(st));
  }

  /** The tag after plain text `v` written at `i + |Tag(st)|` is the first
      one after it. */
  lemma SpanCloses(line: string, i: nat, st: FormatStyle, v: string, end: nat)
    requires st != Unset && Plain(v) && end == i + |Tag(st)| + |v|
    requires OccursAt(line, Tag(st), end) && line[i + |Tag(st)|..end] == v
    ensures IndexOf(line, Tag(st), i + |Tag(st)|) == Some(end)
  {
    ClosedAfter(line, st, i + |Tag(st)|, v);
  }

  /** The opening tag of a span around plain text opens that span's
      style: the text does not extend a one-character tag into a doubled
      one. */
  lemma SpanOpens(line: string, i: nat, st: FormatStyle, v: string)
    requires st != Unset && |v| > 0 && Plain(v)
    requires i + |Tag(st)| + |v| <= |line|
    requires line[i..i + |Tag(st)|] == Tag(st) && line[i + |Tag(st)|..i + |Tag(st)| + |v|] == v
    ensures Opener(line, i) == Some(st)
  {
    if st == C2 || st == C8 {
      assert line[i + 1] == line[i + 1..i + 1 + |v|][0];
    }
    OpenerOfTag(line, i, st);
  }

  /** What the reading needs of a span around plain text `v` written at
      `i` and closed at `end`: the tag opens the span's style, the next tag
      closes it right after `v`, and `v` itself reads as one run. */
  lemma SpanReady(line: string, i: nat, st: FormatStyle, v: string, end: nat)
    requires st != Unset && |v| > 0 && Plain(v)
    requires end == i + |Tag(st)| + |v| && end + |Tag(st)| <= |line| && line[i..end + |Tag(st)|] == Tag(st) + v + Tag(st)
    ensures Opener(line, i) == Some(st)
    ensures IndexOf(line, Tag(st), i + |Tag(st)|) == Some(end)
    ensures FindInlines(line[i + |Tag(st)|..end]) == Ok([Run(v)])
  {
    SpanFacts(line, i, st, v, end);
    PlainLine(v);
  }

  /** A span around plain text `v`, written at `i` and closed at `end`,
      reads back as that span. */
  lemma SpanParses(line: string, i: nat, text: string, st: FormatStyle, v: string, end: nat, ys: seq<Inline>)
    requires st != Unset && |v| > 0 && Plain(v)
    requires end == i + |Tag(st)| + |v| && end + |Tag(st)| <= |line| && line[i..end + |Tag(st)|] == Tag(st) + v + Tag(st)
    requires Scan(line, end + |Tag(st)|, "") == Ok(ys)
    ensures Scan(line, i, text) == Ok(Flush(text) + [Span(st, [Run(v)])] + ys)
  {
    SpanReady(line, i, st, v, end);
    ScanSpan(line, i, text, st, end, [Run(v)], ys);
  }

  // -------------------------------------------------------------- paragraphs

  /** The legacy underline tags swapped for the underline delimiter, since
      some text is shown as stored rather than read back by the formatter.
      Text without a '<' is left as it is. */
  function Underlines(line: string): (r: string)
    ensures (forall k :: 0 <= k < |line| ==> line[k] != '<') ==> r == line
  {
    Replace(Replace(line, "<u>", "_"), "</u>", "_")
  }

  /** `FormSpan`: the elements of a line, legacy underlines included. What
      it builds writes the line with its legacy underlines swapped. */
  function FormSpan(line: string): (r: Result<seq<Inline>>)
    ensures r.Ok? ==> Render(r.value) == Underlines(line) && WellFormed(r.value)
    ensures (forall k :: 0 <= k < |line| ==> line[k] != '<') ==> r == FindInlines(line)
  {
    FindInlines(Underlines(line))
  }

  /** A paragraph: the line it was made from, whether it is a list item
      (shown indented), and its elements. */
  datatype Paragraph = Paragraph(tag: string, indented: bool, inlines: seq<Inline>)

  /** The marker of a list item. */
  const Dash: string := "- "

  /** The text a paragraph's elements are made from: a list item's text
      after its marker, or the whole line. */
  function Body(line: string): (r: string)
    ensures StartsWith(line, Dash) ==> Dash + r == line
    ensures !StartsWith(line, Dash) ==> r == line
  {
    if StartsWith(line, Dash) then line[|Dash|..] else line
  }

  /** `FormParagraph`: a line starting with "- " is a list item; the swap of
      legacy underlines is made on the whole line and the marker is cut off
      afterwards. The paragraph holds what the item's text forms as a span,
      and fails exactly when that does. */
  function FormParagraph(line: string): (r: Result<Paragraph>)
    ensures r.Ok? <==> FormSpan(Body(line)).Ok?
    ensures r.Ok? ==> r.value.tag == line && (r.value.indented <==> StartsWith(line, Dash))
    ensures r.Ok? ==> r.value.inlines == FormSpan(Body(line)).value
    ensures r.Err? ==> r.error == FormSpan(Body(line)).error
  {
    var indented := StartsWith(line, Dash);
    var start := if indented then |Dash| else 0;
    var swapped := Underlines(line);
    DashKept(Body(line));
    var inlines :- FindInlines(swapped[start..]);
    Ok(Paragraph(line, indented, inlines))
  }

  /** The list marker holds no '<', so the swap leaves it in front. */
  lemma DashKept(rest: string)
    ensures |Underlines(Dash + rest)| >= |Dash| && Underlines(Dash + rest)[|Dash|..] == Underlines(rest)
  {
    ReplaceKeepsPrefix(Dash, rest, "<u>", "_");
    ReplaceKeepsPrefix(Dash, Replace(rest, "<u>", "_"), "</u>", "_");
    assert (Dash + Underlines(rest))[|Dash|..] == Underlines(rest);
  }

  /** Legacy underline tags around text without a '<' become underline
      delimiters. */
  lemma LegacyUnderline(v: string)
    requires forall k :: 0 <= k < |v| ==> v[k] != '<'
    ensures Underlines("<u>" + v + "</u>") == "_" + v + "_"
  {
    ReplaceAtStart(v + "</u>", "<u>", "_");
    assert "<u>" + v + "</u>" == "<u>" + (v + "</u>");
    ReplaceKeepsPrefix(v, "</u>", "<u>", "_");
    assert Replace("</u>", "<u>", "_") == "</u>" by {
      assert "</u>"[..3] != "<u>";
      assert "</u>"[1..] == "/u>";
    }
    assert "_" + (v + "</u>") == ("_" + v) + "</u>";
    ReplaceKeepsPrefix("_" + v, "</u>", "</u>", "_");
    ReplaceAtStart("", "</u>", "_");
    assert "</u>" + "" == "</u>";
  }

  /** Plain text holds no '<'. */
  lemma PlainHasNoAngle(v: string)
    requires Plain(v)
    ensures forall k :: 0 <= k < |v| ==> v[k] != '<'
  {
    forall k | 0 <= k < |v| ensures v[k] != '<' {
      assert !Markup(v[k]);
    }
  }

  /** A span around plain text, written with its tags, reads back as that
      span. */
  lemma OneSpanParses(st: FormatStyle, v: string)
    requires st != Unset && |v| > 0 && Plain(v)
    ensures FindInlines(Tag(st) + v + Tag(st)) == Ok([Span(st, [Run(v)])])
  {
    OneSpanScans(Tag(st) + v + Tag(st), st, v);
  }

  /** The reading of such a line, from its start. */
  lemma OneSpanScans(line: string, st: FormatStyle, v: string)
    requires st != Unset && |v| > 0 && Plain(v) && line == Tag(st) + v + Tag(st)
    ensures Scan(line, 0, "") == Ok([Span(st, [Run(v)])])
  {
    assert line[0..|line|] == line;
    assert Scan(line, |line|, "") == Ok([]);
    SpanParses(line, 0, "", st, v, |Tag(st)| + |v|, []);
    assert Flush("") + [Span(st, [Run(v)])] + [] == [Span(st, [Run(v)])];
  }

  /** Tags hold no '<', so a tagged text without one has none either. */
  lemma TaggedHasNoAngle(st: FormatStyle, v: string)
    requires st != Unset && forall k :: 0 <= k < |v| ==> v[k] != '<'
    ensures forall k :: 0 <= k < |Tag(st) + v + Tag(st)| ==> (Tag(st) + v + Tag(st))[k] != '<'
  {
    var line := Tag(st) + v + Tag(st);
    forall k | 0 <= k < |line| ensures line[k] != '<' {
      if k < |Tag(st)| {
        assert line[k] == Tag(st)[k];
      } else if k < |Tag(st)| + |v| {
        assert line[k] == v[k - |Tag(st)|];
      } else {
        assert line[k] == Tag(st)[k - |Tag(st)| - |v|];
      }
    }
  }

  /** Whatever the formatter writes around plain text reads back, through
      `FormSpan`, as one span of that style holding the text: both in the
      current format and in the legacy underline format. */
  lemma FormattedValueParses(st: FormatStyle, v: string, newFormat: bool)
    requires st != Unset && |v| > 0 && Plain(v)
    ensures FormSpan(Format(st, Some(v), newFormat).value) == Ok([Span(st, [Run(v)])])
  {
    OneSpanParses(st, v);
    PlainHasNoAngle(v);
    if st == C6 && !newFormat {
      LegacyUnderline(v);
    } else {
      TaggedHasNoAngle(st, v);
    }
  }
}
