/** The string operations the source takes from JavaScript: `join`, `split`
  * on one character, `trim`, `toLowerCase`, `includes`, and rendering a
  * non-negative integer in a template literal. Strings are sequences of
  * characters. */
module Text {
  import opened Wrappers
  import Seqs

  /** `Array.prototype.join(sep)`. */
  function Join(parts: seq<string>, sep: string): string
  {
    if |parts| == 0 then ""
    else if |parts| == 1 then parts[0]
    else Join(parts[..|parts| - 1], sep) + sep + parts[|parts| - 1]
  }

  /** The position of the last occurrence of `c`, if any. */
  function LastIndexOf(s: string, c: char): (r: Option<nat>)
    ensures r.None? <==> c !in s
    ensures r.Some? ==> r.value < |s| && s[r.value] == c && c !in s[r.value + 1..]
  {
    if s == [] then None
    else if s[|s| - 1] == c then Some(|s| - 1)
    else
      assert s == s[..|s| - 1] + [s[|s| - 1]];
      var r := LastIndexOf(s[..|s| - 1], c);
      if r.Some? then
        assert s[r.value + 1..] == s[..|s| - 1][r.value + 1..] + [s[|s| - 1]];
        r
      else r
  }

  /** `String.prototype.split(sep)` for a one-character separator: the
    * pieces between separators; joining them with the separator gives the
    * string back. */
  function Split(s: string, sep: char): (r: seq<string>)
    ensures |r| >= 1
    ensures forall i :: 0 <= i < |r| ==> sep !in r[i]
    ensures Join(r, [sep]) == s
    decreases |s|
  {
    match LastIndexOf(s, sep)
    case None => [s]
    case Some(i) =>
      var init := Split(s[..i], sep);
      var r := init + [s[i + 1..]];
      assert r[..|r| - 1] == init;
      assert s == s[..i] + [sep] + s[i + 1..];
      r
  }

  /** The characters `String.prototype.trim` removes: ECMAScript's
    * WhiteSpace (tab, vertical tab, form feed, no-break space, the byte
    * order mark and the Unicode space separators) and LineTerminator
    * (line feed, carriage return, line and paragraph separators). */
  const Whitespace: set<char> := {
    ' ', '\t', '\n', '\r', '\U{B}', '\U{C}', '\U{A0}', '\U{1680}',
    '\U{2000}', '\U{2001}', '\U{2002}', '\U{2003}', '\U{2004}', '\U{2005}',
    '\U{2006}', '\U{2007}', '\U{2008}', '\U{2009}', '\U{200A}',
    '\U{2028}', '\U{2029}', '\U{202F}', '\U{205F}', '\U{3000}', '\U{FEFF}'
  }

  predicate IsWhitespace(c: char)
  {
    c in Whitespace
  }

  predicate AllWhitespace(s: string)
  {
    forall i :: 0 <= i < |s| ==> IsWhitespace(s[i])
  }

  /** Neither end of `s` is whitespace. */
  predicate IsTrimmed(s: string)
  {
    s == [] || (!IsWhitespace(s[0]) && !IsWhitespace(s[|s| - 1]))
  }

  function TrimStart(s: string): (r: string)
    ensures r == [] || !IsWhitespace(r[0])
    ensures exists i :: 0 <= i <= |s| && r == s[i..] && AllWhitespace(s[..i])
  {
    if s != [] && IsWhitespace(s[0]) then
      var r := TrimStart(s[1..]);
      assert forall i :: 0 <= i <= |s| - 1 && AllWhitespace(s[1..][..i]) ==> AllWhitespace(s[..i + 1]);
      assert forall i :: 0 <= i <= |s| - 1 ==> s[1..][i..] == s[i + 1..];
      r
    else
      assert s == s[0..];
      s
  }

  function TrimEnd(s: string): (r: string)
    ensures r == [] || !IsWhitespace(r[|r| - 1])
    ensures exists j :: 0 <= j <= |s| && r == s[..j] && AllWhitespace(s[j..])
  {
    if s != [] && IsWhitespace(s[|s| - 1]) then
      var init := s[..|s| - 1];
      var r := TrimEnd(init);
      assert forall j :: 0 <= j <= |init| && AllWhitespace(init[j..]) ==> AllWhitespace(s[j..]);
      assert forall j :: 0 <= j <= |init| ==> init[..j] == s[..j];
      r
    else
      assert s == s[..|s|];
      s
  }

  /** `String.prototype.trim`: the longest infix with whitespace on neither
    * end, obtained by removing only whitespace. */
  function Trim(s: string): (r: string)
    ensures IsTrimmed(r)
    ensures exists i, j :: 0 <= i <= j <= |s| && r == s[i..j] && AllWhitespace(s[..i]) && AllWhitespace(s[j..])
  {
    var t := TrimStart(s);
    var r := TrimEnd(t);
    var i :| 0 <= i <= |s| && t == s[i..] && AllWhitespace(s[..i]);
    var j :| 0 <= j <= |t| && r == t[..j] && AllWhitespace(t[j..]);
    SliceOfSuffix(s, i, j);
    PrefixKeepsHead(t, j);
    r
  }

  /** A prefix of a suffix is an infix, followed by the rest of the suffix. */
  lemma SliceOfSuffix(s: string, i: int, j: int)
    requires 0 <= i <= |s| && 0 <= j <= |s| - i
    ensures s[i..][..j] == s[i..i + j] && s[i..][j..] == s[i + j..]
  {
  }

  /** A prefix that starts nowhere-blank keeps a non-blank head. */
  lemma PrefixKeepsHead(t: string, j: int)
    requires 0 <= j <= |t|
    requires t == [] || !IsWhitespace(t[0])
    ensures t[..j] == [] || !IsWhitespace(t[..j][0])
  {
  }

  /** Whitespace before a trimmed string is all that trimming removes. */
  lemma {:induction false} TrimPadded(w: string, t: string)
    requires AllWhitespace(w) && IsTrimmed(t)
    ensures Trim(w + t) == t
    decreases |w|
  {
    if w == [] {
      assert w + t == t;
      TrimOfTrimmed(t);
    } else {
      assert (w + t)[1..] == w[1..] + t;
      TrimPadded(w[1..], t);
      assert TrimStart(w + t) == TrimStart(w[1..] + t);
    }
  }

  /** `trim` leaves a trimmed string alone. */
  lemma TrimOfTrimmed(t: string)
    requires IsTrimmed(t)
    ensures Trim(t) == t
  {
    assert TrimStart(t) == t;
  }

  /** `String.prototype.toLowerCase` on one character, for the Latin letters
    * A to Z. */
  function LowerChar(c: char): char
  {
    if 'A' <= c <= 'Z' then (c as int - 'A' as int + 'a' as int) as char else c
  }

  function Lower(s: string): string
  {
    Seqs.Map(s, LowerChar)
  }

  /** `needle` occurs in `hay` starting at position `i`. */
  predicate OccursAt(hay: string, needle: string, i: nat)
  {
    i + |needle| <= |hay| && hay[i..i + |needle|] == needle
  }

  /** `hay.includes(needle)`: `needle` occurs in `hay` at some position. */
  function Contains(hay: string, needle: string): (b: bool)
    ensures b <==> exists i: nat :: OccursAt(hay, needle, i)
    decreases |hay|
  {
    if |needle| <= |hay| && hay[..|needle|] == needle then
      assert OccursAt(hay, needle, 0);
      true
    else if hay == [] then false
    else
      var b := Contains(hay[1..], needle);
      assert forall i: nat :: OccursAt(hay[1..], needle, i) ==> OccursAt(hay, needle, i + 1);
      assert forall i: nat :: OccursAt(hay, needle, i) && i > 0 ==> OccursAt(hay[1..], needle, i - 1);
      b
  }

  /** One decimal digit. */
  function Digit(d: nat): (c: char)
    requires d < 10
  {
    ('0' as int + d) as char
  }

  predicate IsDigits(s: string)
  {
    forall i :: 0 <= i < |s| ==> '0' <= s[i] <= '9'
  }

  /** A non-negative integer as JavaScript writes it in a template literal:
    * decimal digits with no leading zero. */
  function Decimal(n: nat): (r: string)
    ensures |r| >= 1 && IsDigits(r)
    ensures r[0] == '0' <==> n == 0
  {
    if n < 10 then [Digit(n)] else Decimal(n / 10) + [Digit(n % 10)]
  }

  /** The number a string of decimal digits denotes. */
  function DecimalValue(s: string): nat
    requires IsDigits(s)
  {
    if s == [] then 0 else DecimalValue(s[..|s| - 1]) * 10 + (s[|s| - 1] as int - '0' as int)
  }

  /** Reading the rendered digits back gives the number. */
  lemma {:induction false} DecimalRoundTrip(n: nat)
    ensures DecimalValue(Decimal(n)) == n
  {
    if n >= 10 {
      DecimalRoundTrip(n / 10);
      var r := Decimal(n);
      assert r[..|r| - 1] == Decimal(n / 10);
    }
  }
}
