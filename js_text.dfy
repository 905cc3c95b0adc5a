// The few pieces of JavaScript's string semantics that the application's
// rules lean on: the `\s` character class, String.prototype.trim,
// `split(':')[0]` and parseInt(…, 10).
module JsText {
  import opened Common

  /** The characters JavaScript's `\s` and `trim` treat as white space
      (WhiteSpace and LineTerminator of ECMA-262). */
  predicate IsWhitespace(c: char) {
    || c == ' ' || c == '\t' || c == '\n' || c == '\r'
    || c == '\U{000B}' || c == '\U{000C}' || c == '\U{00A0}' || c == '\U{1680}'
    || ('\U{2000}' <= c <= '\U{200A}')
    || c == '\U{2028}' || c == '\U{2029}' || c == '\U{202F}' || c == '\U{205F}'
    || c == '\U{3000}' || c == '\U{FEFF}'
  }

  predicate IsDigit(c: char) { '0' <= c <= '9' }

  function DigitValue(c: char): (d: nat)
    requires IsDigit(c)
    ensures d < 10
  {
    c as int - '0' as int
  }

  predicate AllWhitespace(s: string) {
    forall k :: 0 <= k < |s| ==> IsWhitespace(s[k])
  }

  /** The number of white-space characters `s` starts with. */
  function LeadingSpace(s: string): (n: nat)
    ensures n <= |s|
    ensures forall k :: 0 <= k < n ==> IsWhitespace(s[k])
    ensures n < |s| ==> !IsWhitespace(s[n])
  {
    if |s| > 0 && IsWhitespace(s[0]) then
      var n := 1 + LeadingSpace(s[1..]);
      assert forall k :: 1 <= k < n ==> s[k] == s[1..][k - 1];
      n
    else 0
  }

  /** The length of `s` without its trailing white space. */
  function TrailingStart(s: string): (n: nat)
    ensures n <= |s|
    ensures forall k :: n <= k < |s| ==> IsWhitespace(s[k])
    ensures n > 0 ==> !IsWhitespace(s[n - 1])
  {
    if |s| > 0 && IsWhitespace(s[|s| - 1]) then
      var n := TrailingStart(s[..|s| - 1]);
      assert forall k :: n <= k < |s| - 1 ==> s[k] == s[..|s| - 1][k];
      n
    else |s|
  }

  /** String.prototype.trim: `s` without the white space at either end. */
  function Trim(s: string): (r: string)
    ensures r == [] <==> AllWhitespace(s)
    ensures r == [] || (!IsWhitespace(r[0]) && !IsWhitespace(r[|r| - 1]))
    ensures forall k :: 0 <= k < LeadingSpace(s) ==> IsWhitespace(s[k])
    ensures LeadingSpace(s) + |r| <= |s| && r == s[LeadingSpace(s)..LeadingSpace(s) + |r|]
    ensures forall k :: LeadingSpace(s) + |r| <= k < |s| ==> IsWhitespace(s[k])
  {
    var i, j := LeadingSpace(s), TrailingStart(s);
    if i == |s| then
      []
    else
      SpaceBounds(s);
      var r := s[i..j];
      assert r[0] == s[i] && r[|r| - 1] == s[j - 1];
      r
  }

  /** When `s` has a non-space character, the trimmed part is not empty. */
  lemma SpaceBounds(s: string)
    requires LeadingSpace(s) < |s|
    ensures LeadingSpace(s) < TrailingStart(s)
    ensures !AllWhitespace(s)
  {
    var i, j := LeadingSpace(s), TrailingStart(s);
    assert !IsWhitespace(s[i]);
  }

  /** A string with no white space at either end, as `trim` leaves it. */
  predicate IsTrimmed(s: string) {
    s == [] || (!IsWhitespace(s[0]) && !IsWhitespace(s[|s| - 1]))
  }

  /** The strings `trim` leaves unchanged are exactly the trimmed ones. */
  lemma TrimmedIffFixed(s: string)
    ensures IsTrimmed(s) <==> Trim(s) == s
  {
    if IsTrimmed(s) && s != [] {
      assert LeadingSpace(s) == 0;
      assert TrailingStart(s) == |s|;
      assert s[0..|s|] == s;
    }
  }

  lemma TrimIdempotent(s: string)
    ensures Trim(Trim(s)) == Trim(s)
  {
    TrimmedIffFixed(Trim(s));
  }

  /** `s.split(':')[0]`: everything before the first colon, or all of `s`. */
  function BeforeColon(s: string): (r: string)
    ensures |r| <= |s| && r == s[..|r|]
    ensures ':' !in r
    ensures |r| < |s| ==> s[|r|] == ':'
  {
    if s == [] || s[0] == ':' then [] else [s[0]] + BeforeColon(s[1..])
  }

  /** The longest prefix made of decimal digits. */
  function DigitPrefix(s: string): (r: string)
    ensures |r| <= |s| && r == s[..|r|]
    ensures forall k :: 0 <= k < |r| ==> IsDigit(r[k])
    ensures |r| < |s| ==> !IsDigit(s[|r|])
  {
    if s != [] && IsDigit(s[0]) then [s[0]] + DigitPrefix(s[1..]) else []
  }

  /** The decimal value of a digit string. */
  function DigitsValue(d: string): nat
    requires forall k :: 0 <= k < |d| ==> IsDigit(d[k])
  {
    if d == [] then 0 else DigitsValue(d[..|d| - 1]) * 10 + DigitValue(d[|d| - 1])
  }

  /** The value of the longest run of decimal digits `t` starts with; NaN
      (None) when it starts with none. */
  function ParseDigits(t: string): Option<int> {
    var digits := DigitPrefix(t);
    if digits == [] then None else Some(DigitsValue(digits))
  }

  /** An optional sign, then the digits. */
  function ParseSigned(t: string): Option<int> {
    if |t| > 0 && t[0] == '-' then
      match ParseDigits(t[1..])
      case None => None
      case Some(v) => Some(0 - v)
    else if |t| > 0 && t[0] == '+' then ParseDigits(t[1..])
    else ParseDigits(t)
  }

  /** parseInt(s, 10): leading white space skipped, an optional sign, then the
      longest run of decimal digits; NaN (None) when there is no digit. */
  function ParseInt(s: string): Option<int> {
    ParseSigned(s[LeadingSpace(s)..])
  }

  /** Two decimal digits of a number below 100, as `String(n).padStart(2, '0')`. */
  function TwoDigits(n: nat): (r: string)
    requires n < 100
    ensures |r| == 2 && IsDigit(r[0]) && IsDigit(r[1])
    ensures DigitValue(r[0]) * 10 + DigitValue(r[1]) == n
  {
    [('0' as int + n / 10) as char, ('0' as int + n % 10) as char]
  }

  /** Reading back two digits gives the number they were printed from. */
  lemma TwoDigitsValue(n: nat)
    requires n < 100
    ensures DigitsValue(TwoDigits(n)) == n
    ensures ParseInt(TwoDigits(n)) == Some(n)
  {
    var d := TwoDigits(n);
    assert d[..1][..0] == [];
    assert d[..|d| - 1] == d[..1];
    assert DigitsValue(d[..1]) == DigitValue(d[0]);
    assert DigitPrefix(d) == d by {
      assert DigitPrefix(d[1..]) == d[1..] by { assert d[1..][1..] == []; }
    }
  }

  /** A string that starts with a digit is read from its first character:
      no white space to skip and no sign. */
  lemma ParseLeadingDigits(s: string)
    requires |s| > 0 && IsDigit(s[0])
    ensures ParseInt(s) == Some(DigitsValue(DigitPrefix(s)))
  {
    NoLeadingSpace(s);
    assert s[LeadingSpace(s)..] == s;
    assert ParseSigned(s) == ParseDigits(s);
    assert DigitPrefix(s) != [];
  }

  /** A one-digit string reads as that digit. */
  lemma ParseOneDigit(c: char)
    requires IsDigit(c)
    ensures ParseInt([c]) == Some(DigitValue(c))
  {
    ParseLeadingDigits([c]);
    assert DigitPrefix([c]) == [c] by { assert [c][1..] == []; }
    assert [c][..0] == [];
  }

  /** A two-digit string reads as its decimal value. */
  lemma ParseTwoDigits(c: char, d: char)
    requires IsDigit(c) && IsDigit(d)
    ensures ParseInt([c, d]) == Some(DigitValue(c) * 10 + DigitValue(d))
  {
    var n := DigitValue(c) * 10 + DigitValue(d);
    assert n / 10 == DigitValue(c) && n % 10 == DigitValue(d);
    assert TwoDigits(n) == [c, d];
    TwoDigitsValue(n);
  }

  lemma NoLeadingSpace(s: string)
    requires |s| > 0 && IsDigit(s[0])
    ensures LeadingSpace(s) == 0
  {
    assert !IsWhitespace(s[0]);
  }
}
