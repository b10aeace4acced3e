/** Globally unique identifiers and their two textual forms.

    A Guid is 32 hexadecimal digits. `Empty` is the all-zero Guid. The "N" form
    is the 32 digits in lower case; the "D" form groups them 8-4-4-4-12 with
    hyphens. Both forms are injective, which is what makes the grain keys built
    from them unambiguous. */
module Guids {
  import opened Wrappers
  import opened Text

  newtype Nibble = x: int | 0 <= x < 16

  type Guid = d: seq<Nibble> | |d| == 32 witness Zeros()

  function Zeros(): (z: seq<Nibble>)
    ensures |z| == 32
  {
    seq(32, _ => 0 as Nibble)
  }

  /** `Guid.Empty`. */
  const Empty: Guid := Zeros()

  predicate IsLowerHex(c: char) {
    '0' <= c <= '9' || 'a' <= c <= 'f'
  }

  function HexChar(n: Nibble): (c: char)
    ensures IsLowerHex(c)
  {
    if n < 10 then (('0' as int) + n as int) as char else (('a' as int) + n as int - 10) as char
  }

  /** The digit a character denotes, upper or lower case, or None for a non-digit. */
  function HexValue(c: char): (r: Option<Nibble>)
    ensures r.Some? <==> ('0' <= c <= '9' || 'a' <= c <= 'f' || 'A' <= c <= 'F')
  {
    if '0' <= c <= '9' then Some(((c as int) - ('0' as int)) as Nibble)
    else if 'a' <= c <= 'f' then Some(((c as int) - ('a' as int) + 10) as Nibble)
    else if 'A' <= c <= 'F' then Some(((c as int) - ('A' as int) + 10) as Nibble)
    else None
  }

  lemma HexRoundTrip(n: Nibble)
    ensures HexValue(HexChar(n)) == Some(n)
  {
  }

  /** `g.ToString("N")`: 32 lower-case hexadecimal digits, nothing else. */
  function N(g: Guid): (s: string)
    ensures |s| == 32
    ensures forall i :: 0 <= i < 32 ==> IsLowerHex(s[i]) && HexValue(s[i]) == Some(g[i])
  {
    seq(32, i requires 0 <= i < 32 => HexRoundTrip(g[i]); HexChar(g[i]))
  }

  /** `g.ToString("D")` (also `g.ToString()`): the N form split 8-4-4-4-12 by hyphens. */
  function D(g: Guid): (s: string)
    ensures |s| == 36
    ensures s[8] == '-' && s[13] == '-' && s[18] == '-' && s[23] == '-'
    ensures s[..8] + s[9..13] + s[14..18] + s[19..23] + s[24..] == N(g)
  {
    var n := N(g);
    var s := n[..8] + "-" + n[8..12] + "-" + n[12..16] + "-" + n[16..20] + "-" + n[20..];
    assert s[..8] == n[..8] && s[9..13] == n[8..12] && s[14..18] == n[12..16];
    assert s[19..23] == n[16..20] && s[24..] == n[20..];
    assert n == n[..8] + n[8..12] + n[12..16] + n[16..20] + n[20..];
    s
  }

  /** `Guid.Parse` applied to a 32-digit string (the only form the model feeds it). */
  function ParseN(s: string): (r: Option<Guid>)
    ensures r.Some? <==> |s| == 32 && forall i :: 0 <= i < |s| ==> HexValue(s[i]).Some?
    ensures r.Some? ==> forall i :: 0 <= i < 32 ==> HexValue(s[i]) == Some(r.value[i])
  {
    if |s| == 32 && forall i :: 0 <= i < |s| ==> HexValue(s[i]).Some? then
      Some(seq(32, i requires 0 <= i < 32 && HexValue(s[i]).Some? => HexValue(s[i]).value))
    else None
  }

  /** Parsing the N form gives the Guid back. */
  lemma ParseNRoundTrip(g: Guid)
    ensures ParseN(N(g)) == Some(g)
  {
    var r := ParseN(N(g));
    assert r.Some?;
    assert r.value == g;
  }

  lemma NInjective(a: Guid, b: Guid)
    ensures N(a) == N(b) ==> a == b
  {
    ParseNRoundTrip(a);
    ParseNRoundTrip(b);
  }

  lemma DInjective(a: Guid, b: Guid)
    ensures D(a) == D(b) ==> a == b
  {
    NInjective(a, b);
  }

  /** The N form is already lower case and has no '.' in it. */
  lemma NShape(g: Guid)
    ensures Lower(N(g)) == N(g)
    ensures !Contains(N(g), '.')
  {
  }
}
