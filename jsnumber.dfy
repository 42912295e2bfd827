/**
 * The two JavaScript string-to-number conversions the application uses:
 * `Number(s)` (the whole string must be a numeral) and `parseInt(s)` with no
 * radix (the longest numeral at the front). `NaN` is `None`.
 */
module JsNumber {
  import opened Text
  import opened Wrappers

  /** `Number(s)` for strings: white space around an optionally signed decimal integer; the blank string is 0. */
  function Number(s: string): (r: Option<int>)
    ensures AllSpace(s) ==> r == Some(0)
    ensures var t := Trim(s); t != [] && AllDigits(t) ==> r == Some(DigitsValue(t))
    ensures var t := Trim(s); t != [] && !IsDigit(t[0]) && t[0] != '+' && t[0] != '-' ==> r == None
  {
    var t := Trim(s);
    if t == [] then Some(0)
    else if AllDigits(t) then Some(DigitsValue(t))
    else if |t| > 1 && (t[0] == '+' || t[0] == '-') && AllDigits(t[1..]) then
      var v: int := DigitsValue(t[1..]);
      Some(if t[0] == '-' then -v else v)
    else None
  }

  /** `Number` reads a plain numeral as its value. */
  lemma NumberOfDigits(t: string)
    requires |t| >= 1 && AllDigits(t)
    ensures Number(t) == Some(DigitsValue(t))
  {
    TrimDigits(t);
  }

  lemma TrimDigits(t: string)
    requires |t| >= 1 && AllDigits(t)
    ensures Trim(t) == t
  {
    assert !IsSpace(t[0]) && !IsSpace(t[|t| - 1]) by {
      assert IsDigit(t[0]) && IsDigit(t[|t| - 1]);
    }
    assert [] + t + [] == t;
    TrimPadded([], t, []);
  }

  /** `Number(String(n))` gives `n` back. */
  lemma NumberOfNatToString(n: nat)
    ensures Number(NatToString(n)) == Some(n)
  {
    NumberOfDigits(NatToString(n));
    DigitsValueOfNatToString(n);
  }

  /** Length of the run of decimal digits at the front of `s`. */
  function DigitRun(s: string): (n: nat)
    ensures n <= |s|
    ensures AllDigits(s[..n])
    ensures n < |s| ==> !IsDigit(s[n])
  {
    if s == [] || !IsDigit(s[0]) then 0
    else
      var k := DigitRun(s[1..]);
      assert s[..k + 1] == [s[0]] + s[1..][..k];
      k + 1
  }

  predicate IsHexDigit(c: char) {
    IsDigit(c) || 'a' <= c <= 'f' || 'A' <= c <= 'F'
  }

  function HexDigitValue(c: char): nat
    requires IsHexDigit(c)
  {
    if IsDigit(c) then c as int - '0' as int
    else if 'a' <= c <= 'f' then c as int - 'a' as int + 10
    else c as int - 'A' as int + 10
  }

  /** Length of the run of hexadecimal digits at the front of `s`. */
  function HexRun(s: string): (n: nat)
    ensures n <= |s|
    ensures forall i :: 0 <= i < n ==> IsHexDigit(s[i])
  {
    if s == [] || !IsHexDigit(s[0]) then 0 else 1 + HexRun(s[1..])
  }

  function HexValue(s: string): nat
    requires forall i :: 0 <= i < |s| ==> IsHexDigit(s[i])
  {
    if s == [] then 0 else HexValue(s[..|s| - 1]) * 16 + HexDigitValue(s[|s| - 1])
  }

  /** The magnitude `parseInt` reads from an unsigned string: hexadecimal after `0x`/`0X`, otherwise decimal. */
  function UnsignedPrefix(u: string): Option<nat>
  {
    if |u| >= 2 && u[0] == '0' && (u[1] == 'x' || u[1] == 'X') then
      var h := HexRun(u[2..]);
      if h == 0 then None else Some(HexValue(u[2..][..h]))
    else
      var d := DigitRun(u);
      if d == 0 then None else Some(DigitsValue(u[..d]))
  }

  /** `parseInt(s)`: skip leading white space, read an optional sign and the longest numeral that follows. */
  function ParseInt(s: string): (r: Option<int>)
    ensures var t := s[LeadingSpace(s)..]; t == [] || (!IsDigit(t[0]) && t[0] != '+' && t[0] != '-') ==> r == None
  {
    var t := s[LeadingSpace(s)..];
    if t != [] && (t[0] == '-' || t[0] == '+') then
      match UnsignedPrefix(t[1..])
      case None => None
      case Some(v) => Some(if t[0] == '-' then -(v as int) else v)
    else
      match UnsignedPrefix(t)
      case None => None
      case Some(v) => Some(v)
  }

  /** White space before an unsigned numeral is skipped. */
  lemma ParseIntPadded(w: string, t: string, v: nat)
    requires AllSpace(w) && t != [] && IsDigit(t[0]) && UnsignedPrefix(t) == Some(v)
    ensures ParseInt(w + t) == Some(v)
  {
    var s := w + t;
    LeadingOfPadded(w, t);
    assert s[|w|..] == t;
  }

  lemma ParseIntPieces(w: string, digits: string, rest: string, v: nat)
    requires AllSpace(w) && digits != [] && IsDigit(digits[0]) && UnsignedPrefix(digits + rest) == Some(v)
    ensures ParseInt(w + digits + rest) == Some(v)
  {
    var t := digits + rest;
    assert t != [] && IsDigit(t[0]) by { assert t[0] == digits[0]; }
    ParseIntPadded(w, t, v);
    ParseIntRegroup(w, digits, rest);
  }

  lemma ParseIntRegroup(w: string, digits: string, rest: string)
    ensures ParseInt(w + digits + rest) == ParseInt(w + (digits + rest))
  {
    assert w + digits + rest == w + (digits + rest);
  }

  /** A minus sign before an unsigned numeral negates it. */
  lemma ParseIntNegated(u: string, v: nat)
    requires UnsignedPrefix(u) == Some(v)
    ensures ParseInt("-" + u) == Some(-(v as int))
  {
    var t := "-" + u;
    assert t[0] == '-' && !IsSpace(t[0]);
    assert t[1..] == u;
    ParseIntMinus(t, v);
  }

  /** A whole numeral is read as its value. */
  lemma UnsignedDigits(digits: string)
    requires |digits| >= 1 && AllDigits(digits)
    ensures UnsignedPrefix(digits) == Some(DigitsValue(digits))
  {
    UnsignedNumeral(digits, []);
    assert digits + [] == digits;
  }

  lemma ParseIntMinus(t: string, v: nat)
    requires |t| >= 1 && t[0] == '-' && LeadingSpace(t) == 0 && UnsignedPrefix(t[1..]) == Some(v)
    ensures ParseInt(t) == Some(-(v as int))
  {
    assert t[LeadingSpace(t)..] == t;
  }

  lemma UnsignedNumeral(digits: string, rest: string)
    requires |digits| >= 1 && AllDigits(digits)
    requires rest == [] || (!IsDigit(rest[0]) && rest[0] != 'x' && rest[0] != 'X')
    ensures UnsignedPrefix(digits + rest) == Some(DigitsValue(digits))
  {
    var t := digits + rest;
    assert |t| >= 2 ==> t[1] != 'x' && t[1] != 'X' by {
      if |t| >= 2 {
        if |digits| >= 2 { assert t[1] == digits[1]; } else { assert t[1] == rest[0]; }
      }
    }
    DigitRunOfNumeral(digits, rest);
    assert t[..|digits|] == digits;
  }

  lemma {:induction false} DigitRunOfNumeral(digits: string, rest: string)
    requires AllDigits(digits)
    requires rest == [] || !IsDigit(rest[0])
    ensures DigitRun(digits + rest) == |digits|
    decreases |digits|
  {
    if digits == [] {
      assert digits + rest == rest;
    } else {
      assert (digits + rest)[1..] == digits[1..] + rest;
      DigitRunOfNumeral(digits[1..], rest);
    }
  }
}

/**
 * What `parseInt` yields on the numerals the application feeds it, stated
 * over the digit strings themselves.
 */
module ParseIntFacts {
  import opened Text
  import opened Wrappers
  import opened JsNumber

  /** `parseInt` reads a decimal numeral, denoting `n`, and ignores whatever non-digit text follows it. */
  lemma ParseIntNumeral(w: string, digits: string, rest: string, n: nat)
    requires AllSpace(w)
    requires |digits| >= 1 && AllDigits(digits) && n == DigitsValue(digits)
    requires rest == [] || (!IsDigit(rest[0]) && rest[0] != 'x' && rest[0] != 'X')
    ensures ParseInt(w + digits + rest) == Some(n)
  {
    UnsignedNumeral(digits, rest);
    ParseIntPieces(w, digits, rest, n);
  }

  /** `parseInt` reads a minus sign followed by a numeral denoting `n` as `-n`. */
  lemma ParseIntNegative(digits: string, n: nat)
    requires |digits| >= 1 && AllDigits(digits) && n == DigitsValue(digits)
    ensures ParseInt("-" + digits) == Some(-(n as int))
  {
    UnsignedDigits(digits);
    ParseIntNegated(digits, n);
  }
}
