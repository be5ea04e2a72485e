/**
 * The few `java.lang.String` operations the admission layer relies on,
 * written out so that their edge cases are visible: `isBlank`, `isEmpty`,
 * `trim`, `split(",")`, `equalsIgnoreCase("POST")`, and the decimal
 * rendering of `int`/`long` values that string concatenation performs.
 */
module JavaText {
  import opened Wrappers

  /** `Character.isWhitespace`: the Unicode space separators other than the
      non-breaking ones (U+00A0, U+2007, U+202F), the line and paragraph
      separators, and the ASCII controls U+0009..U+000D and U+001C..U+001F. */
  predicate IsWhitespace(c: char) {
    || c == ' '
    || ('\t' <= c <= '\r')
    || ('\U{1C}' <= c <= '\U{1F}')
    || c == '\U{1680}'
    || ('\U{2000}' <= c <= '\U{2006}')
    || ('\U{2008}' <= c <= '\U{200A}')
    || c == '\U{2028}'
    || c == '\U{2029}'
    || c == '\U{205F}'
    || c == '\U{3000}'
  }

  /** `String.isBlank`: empty, or whitespace code points only. */
  predicate IsBlank(s: string) {
    forall i :: 0 <= i < |s| ==> IsWhitespace(s[i])
  }

  /** A header or property that is present and not blank
      (`s != null && !s.isBlank()`). */
  predicate PresentNonBlank(s: Option<string>) {
    s.Some? && !IsBlank(s.value)
  }

  /** A header that is present and not empty (`s != null && !s.isEmpty()`). */
  predicate PresentNonEmpty(s: Option<string>) {
    s.Some? && s.value != []
  }

  /** The characters `String.trim` strips: every code point up to U+0020. */
  predicate IsTrimmed(c: char) {
    c <= ' '
  }

  /** The index of the first character of `s` at or after `i` that `trim`
      keeps (`|s|` when there is none). */
  function FirstKept(s: string, i: nat): (r: nat)
    requires i <= |s|
    ensures i <= r <= |s|
    ensures forall k :: i <= k < r ==> IsTrimmed(s[k])
    ensures r < |s| ==> !IsTrimmed(s[r])
    decreases |s| - i
  {
    if i < |s| && IsTrimmed(s[i]) then FirstKept(s, i + 1) else i
  }

  /** The end of the kept part of `s[lo..j]`: the index just after its
      last character that `trim` keeps (`lo` when there is none). */
  function LastKept(s: string, lo: nat, j: nat): (r: nat)
    requires lo <= j <= |s|
    ensures lo <= r <= j
    ensures forall k :: r <= k < j ==> IsTrimmed(s[k])
    ensures r > lo ==> !IsTrimmed(s[r - 1])
    decreases j
  {
    if j > lo && IsTrimmed(s[j - 1]) then LastKept(s, lo, j - 1) else j
  }

  /** `String.trim`: the longest infix of `s` that neither starts nor ends
      with a character up to U+0020; everything cut away is such a character. */
  function Trim(s: string): (r: string)
    ensures var i := FirstKept(s, 0);
      && i + |r| <= |s| && r == s[i..i + |r|]
      && (forall k :: 0 <= k < i ==> IsTrimmed(s[k]))
      && (forall k :: i + |r| <= k < |s| ==> IsTrimmed(s[k]))
    ensures r != [] ==> !IsTrimmed(r[0]) && !IsTrimmed(r[|r| - 1])
    ensures (forall k :: 0 <= k < |s| ==> !IsTrimmed(s[k])) ==> r == s
  {
    var i := FirstKept(s, 0);
    var j := LastKept(s, i, |s|);
    assert j > i ==> !IsTrimmed(s[i]);
    s[i..j]
  }

  // ---------------------------------------------------------------------
  // String.split with a one-character separator

  /** The pieces of `s` between occurrences of `sep`, empty ones included
      (one more piece than there are separators). */
  function Pieces(s: string, sep: char): (r: seq<string>)
    ensures |r| >= 1
    decreases |s|
  {
    if s == [] then [[]]
    else if s[0] == sep then [[]] + Pieces(s[1..], sep)
    else
      var rest := Pieces(s[1..], sep);
      [[s[0]] + rest[0]] + rest[1..]
  }

  /** The trailing empty strings removed, as `split` with limit 0 does. */
  function DropTrailingEmpty(ps: seq<string>): (r: seq<string>)
    decreases |ps|
  {
    if ps != [] && ps[|ps| - 1] == [] then DropTrailingEmpty(ps[..|ps| - 1]) else ps
  }

  /** `s.split(sep)` for a separator that is not a regular-expression
      metacharacter: `[s]` when `sep` does not occur, otherwise the pieces
      without their trailing empty strings (possibly no piece at all). */
  function JavaSplit(s: string, sep: char): seq<string> {
    if sep !in s then [s] else DropTrailingEmpty(Pieces(s, sep))
  }

  /** The prefix of `s` before the first `sep`, or all of `s`. */
  function UpToFirst(s: string, sep: char): (r: string)
    ensures r <= s
    ensures sep !in r
    ensures |r| < |s| ==> s[|r|] == sep
    decreases |s|
  {
    if s == [] || s[0] == sep then [] else [s[0]] + UpToFirst(s[1..], sep)
  }

  /** Every character of `s` is `sep`. */
  predicate AllAre(s: string, sep: char) {
    forall i :: 0 <= i < |s| ==> s[i] == sep
  }

  lemma {:induction false} FirstPieceIsUpToFirst(s: string, sep: char)
    ensures Pieces(s, sep)[0] == UpToFirst(s, sep)
    decreases |s|
  {
    if s != [] && s[0] != sep {
      FirstPieceIsUpToFirst(s[1..], sep);
    }
  }

  lemma {:induction false} PiecesAllEmpty(s: string, sep: char)
    ensures (forall j :: 0 <= j < |Pieces(s, sep)| ==> Pieces(s, sep)[j] == []) <==> AllAre(s, sep)
    decreases |s|
  {
    if s != [] {
      PiecesAllEmpty(s[1..], sep);
      var p := Pieces(s, sep);
      if s[0] == sep {
        assert p == [[]] + Pieces(s[1..], sep);
        assert forall j :: 0 <= j < |Pieces(s[1..], sep)| ==> Pieces(s[1..], sep)[j] == p[j + 1];
        if AllAre(s, sep) {
          assert AllAre(s[1..], sep);
        } else {
          var i :| 0 <= i < |s| && s[i] != sep;
          assert s[1..][i - 1] != sep;
        }
      } else {
        assert p[0] != [];
      }
    }
  }

  lemma {:induction false} DropTrailingEmptyProps(ps: seq<string>)
    ensures DropTrailingEmpty(ps) == [] <==> (forall j :: 0 <= j < |ps| ==> ps[j] == [])
    ensures DropTrailingEmpty(ps) != [] ==> DropTrailingEmpty(ps)[0] == ps[0]
    decreases |ps|
  {
    if ps != [] && ps[|ps| - 1] == [] {
      var init := ps[..|ps| - 1];
      DropTrailingEmptyProps(init);
      assert forall j :: 0 <= j < |init| ==> init[j] == ps[j];
    }
  }

  /** What `s.split(sep)[0]` sees for a non-empty `s`: the array is empty
      exactly when `s` consists of separators only (so indexing it throws),
      and otherwise its first element is the text before the first `sep`. */
  lemma SplitFirst(s: string, sep: char)
    requires s != []
    ensures JavaSplit(s, sep) == [] <==> AllAre(s, sep)
    ensures JavaSplit(s, sep) != [] ==> JavaSplit(s, sep)[0] == UpToFirst(s, sep)
  {
    if sep in s {
      PiecesAllEmpty(s, sep);
      DropTrailingEmptyProps(Pieces(s, sep));
      FirstPieceIsUpToFirst(s, sep);
    } else {
      assert s[0] != sep;
      assert !AllAre(s, sep);
      FirstPieceIsUpToFirst(s, sep);
      assert Pieces(s, sep)[0] == UpToFirst(s, sep);
      assert UpToFirst(s, sep) == s;
    }
  }

  // ---------------------------------------------------------------------
  // Case-insensitive comparison with "POST"

  /** `c` equals `upper` under `String.equalsIgnoreCase`, for an ASCII
      capital `upper`: the capital, its lower-case letter, and any other
      character whose `Character.toUpperCase` is `upper` (only
      U+017F LATIN SMALL LETTER LONG S, which upper-cases to 'S'). */
  predicate SameLetterIgnoringCase(c: char, upper: char)
    requires 'A' <= upper <= 'Z'
  {
    c == upper || c as int == upper as int + 32 || (upper == 'S' && c == '\U{17F}')
  }

  /** `"POST".equalsIgnoreCase(verb)`. */
  predicate IsPost(verb: string) {
    && |verb| == 4
    && SameLetterIgnoringCase(verb[0], 'P')
    && SameLetterIgnoringCase(verb[1], 'O')
    && SameLetterIgnoringCase(verb[2], 'S')
    && SameLetterIgnoringCase(verb[3], 'T')
  }

  // ---------------------------------------------------------------------
  // Decimal rendering of integers, as `"" + n` produces it

  const INT32_MIN: int := -0x8000_0000
  const INT32_MAX: int := 0x7FFF_FFFF
  const INT64_MIN: int := -0x8000_0000_0000_0000
  const INT64_MAX: int := 0x7FFF_FFFF_FFFF_FFFF

  /** Java `int` and `long` values. */
  type int32 = x: int | INT32_MIN <= x <= INT32_MAX
  type int64 = x: int | INT64_MIN <= x <= INT64_MAX

  /** Java `int` arithmetic: the mathematical result reduced modulo 2^32
      into the `int` range (two's-complement wrap-around). */
  function WrapInt32(x: int): (r: int32)
    ensures INT32_MIN <= x <= INT32_MAX ==> r == x
    ensures (r - x) % 0x1_0000_0000 == 0
  {
    (x - INT32_MIN) % 0x1_0000_0000 + INT32_MIN
  }

  predicate IsDigit(c: char) {
    '0' <= c <= '9'
  }

  function DigitChar(d: nat): (c: char)
    requires d < 10
    ensures IsDigit(c)
  {
    ('0' as int + d) as char
  }

  function DigitValue(c: char): (d: nat)
    requires IsDigit(c)
    ensures d < 10
  {
    c as int - '0' as int
  }

  /** The decimal digits of `n`, most significant first, without leading zeros. */
  function NatToString(n: nat): (s: string)
    ensures |s| >= 1
    ensures forall i :: 0 <= i < |s| ==> IsDigit(s[i])
    decreases n
  {
    if n < 10 then [DigitChar(n)] else NatToString(n / 10) + [DigitChar(n % 10)]
  }

  /** `Integer.toString` / `Long.toString`: a minus sign for negative values. */
  function IntToString(n: int): (s: string)
    ensures |s| >= 1
    ensures forall i :: 0 <= i < |s| ==> IsDigit(s[i]) || s[i] == '-'
  {
    if n < 0 then "-" + NatToString(-n) else NatToString(n)
  }

  /** The value of a string of decimal digits. */
  function ParseNat(s: string): nat
    requires forall i :: 0 <= i < |s| ==> IsDigit(s[i])
    decreases |s|
  {
    if s == [] then 0 else 10 * ParseNat(s[..|s| - 1]) + DigitValue(s[|s| - 1])
  }

  /** The value of an optionally negative decimal numeral. */
  function ParseInt(s: string): Option<int> {
    if s != [] && s[0] == '-' && (forall i :: 1 <= i < |s| ==> IsDigit(s[i])) then
      var magnitude: int := ParseNat(s[1..]);
      Some(-magnitude)
    else if forall i :: 0 <= i < |s| ==> IsDigit(s[i]) then
      Some(ParseNat(s))
    else
      None
  }

  lemma {:induction false} ParseNatToString(n: nat)
    ensures ParseNat(NatToString(n)) == n
    decreases n
  {
    if n >= 10 {
      ParseNatToString(n / 10);
      var s := NatToString(n);
      assert s[..|s| - 1] == NatToString(n / 10);
    }
  }

  /** A minus sign followed by digits parses as the negated digits. */
  lemma ParseNegative(digits: string)
    requires forall i :: 0 <= i < |digits| ==> IsDigit(digits[i])
    ensures ParseInt("-" + digits) == Some(-(ParseNat(digits) as int))
  {
    var s := "-" + digits;
    assert s[1..] == digits;
    forall i | 1 <= i < |s| ensures IsDigit(s[i]) {
      assert s[i] == digits[i - 1];
    }
  }

  /** A non-empty string of digits parses as their value. */
  lemma ParseDigits(digits: string)
    requires digits != [] && forall i :: 0 <= i < |digits| ==> IsDigit(digits[i])
    ensures ParseInt(digits) == Some(ParseNat(digits))
  {
    assert IsDigit(digits[0]);
  }

  /** Decimal rendering is undone by parsing, so it is injective. */
  lemma ParseIntToString(n: int)
    ensures ParseInt(IntToString(n)) == Some(n)
  {
    if n < 0 {
      ParseNatToString(-n);
      ParseNegative(NatToString(-n));
    } else {
      ParseNatToString(n);
      ParseDigits(NatToString(n));
    }
  }
}
