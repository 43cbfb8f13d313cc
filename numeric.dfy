/** `isNaN(s)` on a string, as `chkName` uses it (`!isNaN(name)` rejects a name).
    `isNaN(s)` is false exactly when `Number(s)` is a number, that is when `s`,
    with white space trimmed from both ends, is empty or a StringNumericLiteral
    (section 7.1.4.1.1 of ECMA-262): a signed decimal literal with optional
    fraction and exponent, `Infinity`, or an unsigned `0x`/`0o`/`0b` integer. */
module Numeric {

  /** StrWhiteSpaceChar: the white space and line terminators `Number` trims. */
  predicate IsWhiteSpace(c: char) {
    c == ' ' || c == '\t' || c == '\n' || c == '\r' || c == '\U{000B}' || c == '\U{000C}'
    || c == '\U{00A0}' || c == '\U{1680}' || ('\U{2000}' <= c <= '\U{200A}')
    || c == '\U{2028}' || c == '\U{2029}' || c == '\U{202F}' || c == '\U{205F}'
    || c == '\U{3000}' || c == '\U{FEFF}'
  }

  function Trim(s: string): (t: string)
    ensures |t| <= |s|
    decreases |s|
  {
    if s != [] && IsWhiteSpace(s[0]) then Trim(s[1..])
    else if s != [] && IsWhiteSpace(s[|s| - 1]) then Trim(s[..|s| - 1])
    else s
  }

  predicate IsDecimalDigit(c: char) { '0' <= c <= '9' }

  predicate IsHexDigit(c: char) { IsDecimalDigit(c) || 'a' <= c <= 'f' || 'A' <= c <= 'F' }

  /** The end of the run of decimal digits that starts at `i`. */
  function DigitsEnd(s: string, i: nat): (j: nat)
    requires i <= |s|
    ensures i <= j <= |s|
    ensures forall k :: i <= k < j ==> IsDecimalDigit(s[k])
    ensures j < |s| ==> !IsDecimalDigit(s[j])
    decreases |s| - i
  {
    if i < |s| && IsDecimalDigit(s[i]) then DigitsEnd(s, i + 1) else i
  }

  predicate IsSigned(s: string) { |s| > 0 && (s[0] == '+' || s[0] == '-') }

  /** SignedInteger */
  predicate IsSignedInteger(s: string) {
    var k := if IsSigned(s) then 1 else 0;
    k < |s| && DigitsEnd(s, k) == |s|
  }

  /** ExponentPart */
  predicate IsExponentPart(s: string) {
    |s| > 0 && (s[0] == 'e' || s[0] == 'E') && IsSignedInteger(s[1..])
  }

  /** StrUnsignedDecimalLiteral: digits with an optional fraction (at least one
      digit on one side of the point) and an optional exponent, or `Infinity`. */
  predicate IsUnsignedDecimal(s: string) {
    s == "Infinity" ||
    (var i := DigitsEnd(s, 0);
     var j := if i < |s| && s[i] == '.' then DigitsEnd(s, i + 1) else i;
     (i > 0 || j > i + 1) && (j == |s| || IsExponentPart(s[j..])))
  }

  /** StrDecimalLiteral */
  predicate IsDecimalLiteral(s: string) {
    if IsSigned(s) then IsUnsignedDecimal(s[1..]) else IsUnsignedDecimal(s)
  }

  /** NonDecimalIntegerLiteral without numeric separators. */
  predicate IsNonDecimalInteger(s: string) {
    |s| > 2 && s[0] == '0' &&
    ((s[1] in "xX" && forall k :: 2 <= k < |s| ==> IsHexDigit(s[k])) ||
     (s[1] in "oO" && forall k :: 2 <= k < |s| ==> '0' <= s[k] <= '7') ||
     (s[1] in "bB" && forall k :: 2 <= k < |s| ==> s[k] == '0' || s[k] == '1'))
  }

  /** `!isNaN(s)`: `Number(s)` is a number. */
  predicate LooksNumeric(s: string): (b: bool)
    ensures Trim(s) == "" ==> b
    ensures b && Trim(s) != "" ==> IsDecimalDigit(Trim(s)[0]) || Trim(s)[0] in "+-.I"
  {
    var t := Trim(s);
    t == "" || IsDecimalLiteral(t) || IsNonDecimalInteger(t)
  }
}
