/**
  The JavaScript built-ins that the helper library and the token component
  lean on, stated as total functions over Dafny strings: `BigInt(string)`,
  `BigInt.prototype.toString()`, `String.prototype.substring`, `slice`,
  `repeat` and `toLowerCase`.
 */
module JsBuiltins {
  import opened Wrappers

  // ---------------------------------------------------------------------
  // Digits

  predicate IsHexDigit(c: char) {
    '0' <= c <= '9' || 'a' <= c <= 'f' || 'A' <= c <= 'F'
  }

  function DigitValue(c: char): (d: nat)
    requires IsHexDigit(c)
    ensures d < 16
  {
    if '0' <= c <= '9' then c as int - '0' as int
    else if 'a' <= c <= 'f' then c as int - 'a' as int + 10
    else c as int - 'A' as int + 10
  }

  /** A digit of the given radix (2, 8, 10 or 16 in the uses below). */
  predicate IsDigitOf(c: char, radix: nat) {
    IsHexDigit(c) && DigitValue(c) < radix
  }

  predicate AllDigitsOf(s: string, radix: nat) {
    forall i :: 0 <= i < |s| ==> IsDigitOf(s[i], radix)
  }

  /** The value of a digit string read most significant digit first. */
  function DigitsValue(s: string, radix: nat): nat
    requires AllDigitsOf(s, radix)
  {
    if s == [] then 0
    else DigitsValue(s[..|s| - 1], radix) * radix + DigitValue(s[|s| - 1])
  }

  /** A non-empty run of digits of the radix and nothing else, or None. */
  function ParseDigits(s: string, radix: nat): (r: Option<nat>)
    ensures r.Some? <==> s != [] && AllDigitsOf(s, radix)
  {
    if s != [] && AllDigitsOf(s, radix) then Some(DigitsValue(s, radix)) else None
  }

  // ---------------------------------------------------------------------
  // Whitespace and trimming (StrWhiteSpaceChar: WhiteSpace and LineTerminator)

  predicate IsJsWhiteSpace(c: char) {
    || c == '\t' || c == '\n' || c == '\U{B}' || c == '\U{C}' || c == '\r'
    || c == ' ' || c == '\U{A0}' || c == '\U{1680}'
    || ('\U{2000}' <= c <= '\U{200A}')
    || c == '\U{2028}' || c == '\U{2029}' || c == '\U{202F}' || c == '\U{205F}'
    || c == '\U{3000}' || c == '\U{FEFF}'
  }

  /** Drops leading whitespace: the result is a suffix of `s` that does not start with whitespace. */
  function TrimStart(s: string): (r: string)
    ensures |r| <= |s| && r == s[|s| - |r|..]
    ensures forall i :: 0 <= i < |s| - |r| ==> IsJsWhiteSpace(s[i])
    ensures r == [] || !IsJsWhiteSpace(r[0])
  {
    if s != [] && IsJsWhiteSpace(s[0]) then TrimStart(s[1..]) else s
  }

  /** Drops trailing whitespace: the result is a prefix of `s` that does not end with whitespace. */
  function TrimEnd(s: string): (r: string)
    ensures |r| <= |s| && r == s[..|r|]
    ensures forall i :: |r| <= i < |s| ==> IsJsWhiteSpace(s[i])
    ensures r == [] || !IsJsWhiteSpace(r[|r| - 1])
  {
    if s != [] && IsJsWhiteSpace(s[|s| - 1]) then TrimEnd(s[..|s| - 1]) else s
  }

  function Trim(s: string): string {
    TrimEnd(TrimStart(s))
  }

  // ---------------------------------------------------------------------
  // BigInt(string) and BigInt.prototype.toString()

  function Negated(r: Option<nat>): Option<int> {
    match r
    case Some(n) => Some(-(n as int))
    case None => None
  }

  /**
    `BigInt(text)` for a string argument (the StringToBigInt conversion).
    None stands for the SyntaxError it throws. After trimming, the empty
    string is 0n; `0x`, `0o` and `0b` (either case) introduce hexadecimal,
    octal and binary digits with no sign; otherwise an optional sign and
    decimal digits. No decimal point, exponent or `n` suffix is accepted.
   */
  function StringToBigInt(text: string): Option<int> {
    ParseTrimmed(Trim(text))
  }

  /** The StringIntegerLiteral grammar, read from already trimmed text. */
  function ParseTrimmed(t: string): Option<int> {
    if t == [] then Some(0)
    else if |t| >= 2 && t[0] == '0' && (t[1] == 'x' || t[1] == 'X') then ParseDigits(t[2..], 16)
    else if |t| >= 2 && t[0] == '0' && (t[1] == 'o' || t[1] == 'O') then ParseDigits(t[2..], 8)
    else if |t| >= 2 && t[0] == '0' && (t[1] == 'b' || t[1] == 'B') then ParseDigits(t[2..], 2)
    else if t[0] == '-' then Negated(ParseDigits(t[1..], 10))
    else if t[0] == '+' then ParseDigits(t[1..], 10)
    else ParseDigits(t, 10)
  }

  function DecimalDigit(d: nat): (c: char)
    requires d < 10
    ensures IsDigitOf(c, 10) && DigitValue(c) == d
  {
    ('0' as int + d) as char
  }

  /** Decimal digits of `n`, with no leading zero unless `n` is 0. */
  function NatToString(n: nat): (s: string)
    ensures s != [] && AllDigitsOf(s, 10)
    ensures s[0] == '0' ==> s == "0"
    decreases n
  {
    if n < 10 then [DecimalDigit(n)] else NatToString(n / 10) + [DecimalDigit(n % 10)]
  }

  /** `BigInt.prototype.toString()`: a minus sign for negative values. */
  function IntToString(i: int): (s: string)
    ensures s != []
    ensures s[0] == '-' <==> i < 0
  {
    if i < 0 then "-" + NatToString(-i) else NatToString(i)
  }

  lemma {:induction false} NatToStringValue(n: nat)
    ensures DigitsValue(NatToString(n), 10) == n
    decreases n
  {
    if n >= 10 {
      var s := NatToString(n);
      assert s[..|s| - 1] == NatToString(n / 10);
      NatToStringValue(n / 10);
    }
  }

  lemma DecimalDigitIsNotWhiteSpace(c: char)
    requires IsDigitOf(c, 10)
    ensures '0' <= c <= '9' && !IsJsWhiteSpace(c)
  {
  }

  lemma TrimUnchanged(s: string)
    requires s != [] && !IsJsWhiteSpace(s[0]) && !IsJsWhiteSpace(s[|s| - 1])
    ensures Trim(s) == s
  {
  }

  /** Reading back what `toString()` wrote gives the same BigInt. */
  lemma StringToBigIntRoundTrip(i: int)
    ensures StringToBigInt(IntToString(i)) == Some(i)
  {
    var s := IntToString(i);
    var n: nat := if i < 0 then -i else i;
    var d := NatToString(n);
    NatToStringValue(n);
    DecimalDigitIsNotWhiteSpace(d[0]);
    DecimalDigitIsNotWhiteSpace(d[|d| - 1]);
    TrimUnchanged(s);
    if i < 0 {
      assert s == "-" + d && s[1..] == d;
      assert ParseDigits(d, 10) == Some(n);
    } else {
      assert s == d;
      assert ParseDigits(d, 10) == Some(n);
    }
  }

  /** Whitespace in front of the text does not change what `BigInt` reads. */
  lemma StringToBigIntSkipsLeadingSpace(c: char, text: string)
    requires IsJsWhiteSpace(c)
    ensures StringToBigInt([c] + text) == StringToBigInt(text)
  {
    assert ([c] + text)[1..] == text;
    assert Trim([c] + text) == Trim(text);
  }

  /** A plus sign in front of decimal digits is accepted and changes nothing. */
  lemma StringToBigIntPlusSign(n: nat)
    ensures StringToBigInt("+" + NatToString(n)) == Some(n)
  {
    var d := NatToString(n);
    NatToStringValue(n);
    DecimalDigitIsNotWhiteSpace(d[|d| - 1]);
    TrimUnchanged("+" + d);
    assert ("+" + d)[1..] == d;
    assert ParseDigits(d, 10) == Some(n);
  }

  // ---------------------------------------------------------------------
  // substring, slice, repeat

  /** ToIntegerOrInfinity followed by clamping into [0, len]. */
  function ClampIndex(x: int, len: nat): (r: nat)
    ensures r <= len
    ensures 0 <= x <= len ==> r == x
  {
    if x < 0 then 0 else if x > len then len else x
  }

  /**
    `s.substring(start, end)`: both bounds are clamped into [0, |s|] and
    swapped when the start lies after the end.
   */
  function Substring(s: string, start: int, end: int): (r: string)
    ensures 0 <= start <= end <= |s| ==> r == s[start..end]
    ensures 0 <= end <= start <= |s| ==> r == s[end..start]
    ensures start <= 0 && 0 <= end <= |s| ==> r == s[..end]
    ensures start <= 0 && end <= 0 ==> r == []
    ensures start <= 0 && |s| <= end ==> r == s
    ensures |s| <= start && |s| <= end ==> r == []
    ensures 0 <= start <= |s| && end <= 0 ==> r == s[..start]
    ensures 0 <= start <= |s| && |s| <= end ==> r == s[start..]
    ensures |s| <= start && end <= 0 ==> r == s
    ensures |s| <= start && 0 <= end <= |s| ==> r == s[end..]
    ensures |r| == if ClampIndex(start, |s|) <= ClampIndex(end, |s|)
                   then ClampIndex(end, |s|) - ClampIndex(start, |s|)
                   else ClampIndex(start, |s|) - ClampIndex(end, |s|)
  {
    var a, b := ClampIndex(start, |s|), ClampIndex(end, |s|);
    if a <= b then s[a..b] else s[b..a]
  }

  /** `s.slice(start)`: a negative start counts back from the end. */
  function SliceFrom(s: string, start: int): (r: string)
    ensures start < 0 && -start <= |s| ==> r == s[|s| + start..]
    ensures start < 0 && -start > |s| ==> r == s
    ensures 0 <= start ==> r == s[ClampIndex(start, |s|)..]
  {
    if start < 0 then s[ClampIndex(|s| + start, |s|)..] else s[ClampIndex(start, |s|)..]
  }

  /** `s.repeat(count)` for a one-character `s`. */
  function Repeat(c: char, count: nat): (r: string)
    ensures |r| == count && forall i :: 0 <= i < count ==> r[i] == c
  {
    seq(count, _ => c)
  }

  // ---------------------------------------------------------------------
  // toLowerCase

  /**
    Lower-casing of one character. Exact for ASCII letters and for the
    Kelvin sign U+212A, the one non-ASCII character whose lower case is an
    ASCII letter. Every other character is left as it is; their JavaScript
    lower case is never ASCII, which is all the table lookup below can tell.
   */
  function LowerChar(c: char): (r: char)
    ensures 'A' <= c <= 'Z' ==> 'a' <= r <= 'z'
    ensures !('A' <= r <= 'Z')
  {
    if 'A' <= c <= 'Z' then (c as int + 32) as char
    else if c == '\U{212A}' then 'k'
    else c
  }

  function ToLowerCase(s: string): (r: string)
    ensures |r| == |s| && forall i :: 0 <= i < |s| ==> r[i] == LowerChar(s[i])
  {
    seq(|s|, i requires 0 <= i < |s| => LowerChar(s[i]))
  }

  lemma ToLowerCaseIdempotent(s: string)
    ensures ToLowerCase(ToLowerCase(s)) == ToLowerCase(s)
  {
  }
}
