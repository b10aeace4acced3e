/** `ConversionExtensions`: splitting a string into trimmed, non-empty
    entries, merging entries back with a separator, and lenient integer
    parsing.

    Every caller splits on a one-character separator, so the separator is a
    `char` here. */
module Conversion {
  import opened Wrappers
  import opened Text

  // ----------------------------------------------------------------- splitting

  /** `s.Split(sep)` with no options: the runs between separators, empty
      runs included, so there is always at least one piece. */
  function Pieces(s: string, sep: char): (r: seq<string>)
    ensures |r| >= 1
    ensures forall i :: 0 <= i < |r| ==> !Contains(r[i], sep)
    decreases |s|
  {
    if |s| == 0 then [""]
    else
      var rest := Pieces(s[1..], sep);
      if s[0] == sep then [""] + rest
      else
        var head := [s[0]] + rest[0];
        assert forall k :: 1 <= k < |head| ==> head[k] == rest[0][k - 1];
        [head] + rest[1..]
  }

  /** Joining the pieces with the separator gives the string back. */
  lemma {:induction false} JoinPieces(s: string, sep: char)
    ensures Join(Pieces(s, sep), [sep]) == s
    decreases |s|
  {
    if |s| > 0 {
      JoinPieces(s[1..], sep);
      var rest := Pieces(s[1..], sep);
      if s[0] == sep {
        assert ([""] + rest)[1..] == rest;
      } else if |rest| > 1 {
        var ps := [[s[0]] + rest[0]] + rest[1..];
        assert ps[1..] == rest[1..];
        assert Join(rest, [sep]) == rest[0] + [sep] + Join(rest[1..], [sep]);
        assert s == [s[0]] + s[1..];
      } else {
        assert s == [s[0]] + s[1..];
      }
    }
  }

  /** A string without the separator is a single piece. */
  lemma {:induction false} PiecesWhole(a: string, sep: char)
    requires !Contains(a, sep)
    ensures Pieces(a, sep) == [a]
    decreases |a|
  {
    if |a| > 0 {
      assert !Contains(a[1..], sep) by {
        assert forall k :: 0 <= k < |a[1..]| ==> a[1..][k] == a[k + 1];
      }
      PiecesWhole(a[1..], sep);
      assert a == [a[0]] + a[1..];
    }
  }

  /** A separator-free prefix followed by a separator is one piece. */
  lemma {:induction false} PiecesCons(a: string, b: string, sep: char)
    requires !Contains(a, sep)
    ensures Pieces(a + [sep] + b, sep) == [a] + Pieces(b, sep)
    decreases |a|
  {
    var s := a + [sep] + b;
    if |a| == 0 {
      assert s == [sep] + b;
      assert s[1..] == b;
    } else {
      assert !Contains(a[1..], sep) by {
        assert forall k :: 0 <= k < |a[1..]| ==> a[1..][k] == a[k + 1];
      }
      PiecesCons(a[1..], b, sep);
      assert s[0] == a[0];
      assert s[1..] == a[1..] + [sep] + b;
      assert a == [a[0]] + a[1..];
    }
  }

  /** Splitting a join of separator-free strings gives them back. */
  lemma {:induction false} PiecesOfJoin(xs: seq<string>, sep: char)
    requires |xs| >= 1
    requires forall i :: 0 <= i < |xs| ==> !Contains(xs[i], sep)
    ensures Pieces(Join(xs, [sep]), sep) == xs
    decreases |xs|
  {
    if |xs| == 1 {
      PiecesWhole(xs[0], sep);
    } else {
      PiecesOfJoin(xs[1..], sep);
      PiecesCons(xs[0], Join(xs[1..], [sep]), sep);
      assert xs == [xs[0]] + xs[1..];
    }
  }

  /** `TrimEntries | RemoveEmptyEntries`: every piece is trimmed and the
      ones that end up empty are dropped. */
  function Entries(ps: seq<string>): (r: seq<string>)
    ensures |r| <= |ps|
    ensures forall i :: 0 <= i < |r| ==> r[i] != "" && IsTrimmed(r[i])
    decreases |ps|
  {
    if |ps| == 0 then []
    else
      var t := Trim(ps[0]);
      (if t == "" then [] else [t]) + Entries(ps[1..])
  }

  /** Trimming only removes characters from the ends. */
  lemma TrimKeepsOut(s: string, c: char)
    requires !Contains(s, c)
    ensures !Contains(Trim(s), c)
  {
    var st := TrimStart(s);
    assert forall k :: 0 <= k < |st| ==> st[k] == s[|s| - |st| + k];
    var r := TrimEnd(st);
    assert forall k :: 0 <= k < |r| ==> r[k] == st[k];
  }

  /** Entries keep out every character their pieces keep out. */
  lemma {:induction false} EntriesKeepOut(ps: seq<string>, c: char)
    requires forall i :: 0 <= i < |ps| ==> !Contains(ps[i], c)
    ensures forall i :: 0 <= i < |Entries(ps)| ==> !Contains(Entries(ps)[i], c)
    decreases |ps|
  {
    if |ps| > 0 {
      TrimKeepsOut(ps[0], c);
      EntriesKeepOut(ps[1..], c);
    }
  }

  /** Pieces that are already non-empty and trimmed are kept as they are. */
  lemma {:induction false} EntriesOfClean(xs: seq<string>)
    requires forall i :: 0 <= i < |xs| ==> xs[i] != "" && IsTrimmed(xs[i])
    ensures Entries(xs) == xs
    decreases |xs|
  {
    if |xs| > 0 {
      TrimIdentity(xs[0]);
      EntriesOfClean(xs[1..]);
      assert xs == [xs[0]] + xs[1..];
    }
  }

  /** `SplitInto(separator)`: the trimmed, non-empty pieces, in order. No
      entry is empty, has white space at either end or holds the separator. */
  function SplitInto(s: string, sep: char): (r: seq<string>)
    ensures forall i :: 0 <= i < |r| ==> r[i] != "" && IsTrimmed(r[i]) && !Contains(r[i], sep)
  {
    EntriesKeepOut(Pieces(s, sep), sep);
    Entries(Pieces(s, sep))
  }

  /** `SplitInto(separator, converter)`: the converter applied to each entry. */
  function SplitMap<T>(s: string, sep: char, convert: string -> T): (r: seq<T>)
    ensures |r| == |SplitInto(s, sep)|
    ensures forall i :: 0 <= i < |r| ==> r[i] == convert(SplitInto(s, sep)[i])
  {
    var parts := SplitInto(s, sep);
    seq(|parts|, i requires 0 <= i < |parts| => convert(parts[i]))
  }

  // ------------------------------------------------------------------ merging

  /** The `Aggregate` of `MergeInto`: the separator before every entry. */
  function Fold(acc: string, xs: seq<string>, sep: char): string
    decreases |xs|
  {
    if |xs| == 0 then acc else Fold(acc + [sep] + xs[0], xs[1..], sep)
  }

  /** `TrimStart(sep)`. */
  function TrimCharStart(s: string, c: char): (r: string)
    ensures |r| <= |s| && r == s[|s| - |r|..]
    ensures |r| > 0 ==> r[0] != c
    decreases |s|
  {
    if |s| > 0 && s[0] == c then TrimCharStart(s[1..], c) else s
  }

  /** `TrimEnd(sep)`. */
  function TrimCharEnd(s: string, c: char): (r: string)
    ensures |r| <= |s| && r == s[..|r|]
    ensures |r| > 0 ==> r[|r| - 1] != c
    decreases |s|
  {
    if |s| > 0 && s[|s| - 1] == c then TrimCharEnd(s[..|s| - 1], c) else s
  }

  /** `MergeInto(separator)`: every entry after a separator, then the
      separator character stripped from both ends of the whole text. */
  function MergeInto(xs: seq<string>, sep: char): (r: string)
    ensures |r| > 0 ==> r[0] != sep && r[|r| - 1] != sep
    ensures |xs| == 0 ==> r == ""
  {
    TrimCharEnd(TrimCharStart(Fold("", xs, sep), sep), sep)
  }

  /** `MergeInto(separator, converter)`: the converter applied first. */
  function MergeMap<T>(xs: seq<T>, sep: char, convert: T -> string): string {
    MergeInto(seq(|xs|, i requires 0 <= i < |xs| => convert(xs[i])), sep)
  }

  /** The fold is the separator followed by the joined entries. */
  lemma {:induction false} FoldIsJoin(acc: string, xs: seq<string>, sep: char)
    requires |xs| >= 1
    ensures Fold(acc, xs, sep) == acc + [sep] + Join(xs, [sep])
    decreases |xs|
  {
    if |xs| > 1 {
      FoldIsJoin(acc + [sep] + xs[0], xs[1..], sep);
    }
  }

  /** The joined text starts with the first entry's first character. */
  lemma JoinFirst(xs: seq<string>, sep: char)
    requires |xs| >= 1 && xs[0] != ""
    ensures var j := Join(xs, [sep]); |j| > 0 && j[0] == xs[0][0]
  {
  }

  /** The joined text ends with the last entry's last character. */
  lemma {:induction false} JoinLast(xs: seq<string>, sep: char)
    requires |xs| >= 1 && xs[|xs| - 1] != ""
    ensures var j := Join(xs, [sep]); |j| > 0 && j[|j| - 1] == xs[|xs| - 1][|xs[|xs| - 1]| - 1]
    decreases |xs|
  {
    if |xs| > 1 {
      JoinLast(xs[1..], sep);
    }
  }

  /** Stripping separators from the fold of entries that neither start nor
      end with one removes just the leading separator. */
  lemma TrimFold(j: string, sep: char)
    requires |j| > 0 && j[0] != sep && j[|j| - 1] != sep
    ensures TrimCharEnd(TrimCharStart("" + [sep] + j, sep), sep) == j
  {
    var f := "" + [sep] + j;
    assert f[1..] == j;
  }

  /** Merging non-empty, separator-free entries is joining them. */
  lemma MergeIsJoin(xs: seq<string>, sep: char)
    requires |xs| >= 1
    requires forall i :: 0 <= i < |xs| ==> xs[i] != "" && !Contains(xs[i], sep)
    ensures MergeInto(xs, sep) == Join(xs, [sep])
  {
    FoldIsJoin("", xs, sep);
    JoinFirst(xs, sep);
    JoinLast(xs, sep);
    var last := xs[|xs| - 1];
    assert xs[0][0] != sep;
    assert last[|last| - 1] != sep;
    TrimFold(Join(xs, [sep]), sep);
  }

  /** Splitting what was merged gives back entries that are non-empty,
      trimmed and free of the separator. */
  lemma MergeRoundTrip(xs: seq<string>, sep: char)
    requires forall i :: 0 <= i < |xs| ==> xs[i] != "" && IsTrimmed(xs[i]) && !Contains(xs[i], sep)
    ensures SplitInto(MergeInto(xs, sep), sep) == xs
  {
    if |xs| == 0 {
      assert Pieces("", sep) == [""];
    } else {
      MergeIsJoin(xs, sep);
      PiecesOfJoin(xs, sep);
      EntriesOfClean(xs);
    }
  }

  /** With converters that invert each other on the values at hand, and
      value texts that are clean entries, splitting the merged values gives
      them back. */
  lemma MergeMapRoundTrip<T>(xs: seq<T>, sep: char, write: T -> string, read: string -> T)
    requires forall i :: 0 <= i < |xs| ==> write(xs[i]) != "" && IsTrimmed(write(xs[i])) && !Contains(write(xs[i]), sep)
    requires forall i :: 0 <= i < |xs| ==> read(write(xs[i])) == xs[i]
    ensures SplitMap(MergeMap(xs, sep, write), sep, read) == xs
  {
    var texts := seq(|xs|, i requires 0 <= i < |xs| => write(xs[i]));
    MergeRoundTrip(texts, sep);
  }

  /** Splitting a separator join of clean entries gives them back. */
  lemma SplitJoinRoundTrip(xs: seq<string>, sep: char)
    requires |xs| >= 1
    requires forall i :: 0 <= i < |xs| ==> xs[i] != "" && IsTrimmed(xs[i]) && !Contains(xs[i], sep)
    ensures SplitInto(Join(xs, [sep]), sep) == xs
  {
    PiecesOfJoin(xs, sep);
    EntriesOfClean(xs);
  }

  // ------------------------------------------------------------------ numbers

  const MinInt: int := -0x8000_0000
  const MaxInt: int := 0x7FFF_FFFF

  predicate IsInt(i: int) {
    MinInt <= i <= MaxInt
  }

  /** `TryToInt`: the parsed 32-bit value, or the default when the text is
      not a number in range. */
  function TryToInt(s: string, default: int): (r: int)
    ensures ParseInt(s).Some? && IsInt(ParseInt(s).value) ==> r == ParseInt(s).value
    ensures !(ParseInt(s).Some? && IsInt(ParseInt(s).value)) ==> r == default
  {
    match ParseInt(s)
    case Some(i) => if IsInt(i) then i else default
    case None => default
  }

  /** A 32-bit number survives being written and read back; the default
      plays no part. */
  lemma TryToIntRoundTrip(i: int, default: int)
    requires IsInt(i)
    ensures TryToInt(IntToString(i), default) == i
  {
    IntStringRoundTrip(i);
  }
}
