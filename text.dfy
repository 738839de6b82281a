/** The string conventions the tracker relies on from JavaScript: what `trim()`
    strips, how a number prints in a template string, and what `parseInt`
    reads back from a string. */
module Text {
  import opened Types

  /** The characters `String.prototype.trim` removes: ECMAScript WhiteSpace
      and LineTerminator code points. */
  predicate IsWhitespace(c: char)
  {
    c == '\t' || c == '\n' || c == '\U{B}' || c == '\U{C}' || c == '\r' || c == ' '
    || c == '\U{A0}' || c == '\U{1680}' || ('\U{2000}' <= c <= '\U{200A}')
    || c == '\U{2028}' || c == '\U{2029}' || c == '\U{202F}' || c == '\U{205F}'
    || c == '\U{3000}' || c == '\U{FEFF}'
  }

  /** `s.trim().length === 0`. */
  predicate IsBlank(s: string)
  {
    forall i :: 0 <= i < |s| ==> IsWhitespace(s[i])
  }

  /** What `parseInt` skips before the number. */
  function TrimStart(s: string): (r: string)
    ensures |r| <= |s| && r == s[|s| - |r|..]
    ensures r == [] || !IsWhitespace(r[0])
    ensures IsBlank(s[..|s| - |r|])
  {
    if s == [] || !IsWhitespace(s[0]) then s
    else
      var r := TrimStart(s[1..]);
      assert s[..|s| - |r|] == [s[0]] + s[1..][..|s| - 1 - |r|];
      r
  }

  predicate IsDigit(c: char)
  {
    '0' <= c <= '9'
  }

  predicate AllDigits(s: string)
  {
    forall i :: 0 <= i < |s| ==> IsDigit(s[i])
  }

  function DigitValue(c: char): (d: nat)
    requires IsDigit(c)
    ensures d < 10
  {
    (c as int) - ('0' as int)
  }

  function DigitChar(d: nat): (c: char)
    requires d < 10
    ensures IsDigit(c) && DigitValue(c) == d
  {
    (('0' as int) + d) as char
  }

  /** The decimal numeral of `n`, most significant digit first, no leading zeros. */
  function NatToString(n: nat): (s: string)
    ensures |s| >= 1 && AllDigits(s)
    ensures |s| > 1 ==> s[0] != '0'
    decreases n
  {
    if n < 10 then [DigitChar(n)] else NatToString(n / 10) + [DigitChar(n % 10)]
  }

  /** `${i}` for an integer: a minus sign before the numeral of a negative value. */
  function IntToString(i: int): (s: string)
    ensures |s| >= 1
    ensures i < 0 <==> s[0] == '-'
  {
    if i < 0 then "-" + NatToString(-i) else NatToString(i)
  }

  /** The value of a string of decimal digits. */
  function DigitsValue(s: string): nat
    requires AllDigits(s)
  {
    if s == [] then 0 else DigitsValue(s[..|s| - 1]) * 10 + DigitValue(s[|s| - 1])
  }

  /** The longest prefix of `s` made of decimal digits. */
  function LeadingDigits(s: string): (r: string)
    ensures |r| <= |s| && r == s[..|r|] && AllDigits(r)
    ensures |r| == |s| || !IsDigit(s[|r|])
  {
    if s == [] || !IsDigit(s[0]) then [] else [s[0]] + LeadingDigits(s[1..])
  }

  predicate IsHexDigit(c: char)
  {
    IsDigit(c) || 'a' <= c <= 'f' || 'A' <= c <= 'F'
  }

  function HexDigitValue(c: char): (d: nat)
    requires IsHexDigit(c)
    ensures d < 16
    ensures IsDigit(c) ==> d == DigitValue(c)
  {
    if IsDigit(c) then DigitValue(c)
    else if 'a' <= c <= 'f' then 10 + ((c as int) - ('a' as int))
    else 10 + ((c as int) - ('A' as int))
  }

  predicate AllHexDigits(s: string)
  {
    forall i :: 0 <= i < |s| ==> IsHexDigit(s[i])
  }

  /** The value of a string of hexadecimal digits. */
  function HexDigitsValue(s: string): nat
    requires AllHexDigits(s)
  {
    if s == [] then 0 else HexDigitsValue(s[..|s| - 1]) * 16 + HexDigitValue(s[|s| - 1])
  }

  /** The longest prefix of `s` made of hexadecimal digits. */
  function LeadingHexDigits(s: string): (r: string)
    ensures |r| <= |s| && r == s[..|r|] && AllHexDigits(r)
    ensures |r| == |s| || !IsHexDigit(s[|r|])
  {
    if s == [] || !IsHexDigit(s[0]) then [] else [s[0]] + LeadingHexDigits(s[1..])
  }

  /** Without a radix argument, `parseInt` reads a numeral that starts with
      "0x" or "0X" (after the sign) in base 16. */
  predicate HexPrefixed(t: string)
  {
    |t| >= 2 && t[0] == '0' && (t[1] == 'x' || t[1] == 'X')
  }

  /** The value of the longest run of digits of `s` in the given radix, None
      when `s` does not start with such a digit. */
  function DecimalRun(s: string): (m: Option<nat>)
    ensures m.Some? <==> LeadingDigits(s) != []
  {
    var digits := LeadingDigits(s);
    if digits == [] then None else Some(DigitsValue(digits))
  }

  function HexRun(s: string): (m: Option<nat>)
    ensures m.Some? <==> LeadingHexDigits(s) != []
  {
    var digits := LeadingHexDigits(s);
    if digits == [] then None else Some(HexDigitsValue(digits))
  }

  /** The number the digits after the sign spell: hexadecimal after a "0x" or
      "0X" prefix, decimal otherwise; None when there is no such digit. */
  function Magnitude(body: string): (m: Option<nat>)
    ensures m.Some? <==> if HexPrefixed(body) then LeadingHexDigits(body[2..]) != [] else LeadingDigits(body) != []
  {
    if HexPrefixed(body) then HexRun(body[2..]) else DecimalRun(body)
  }

  /** `parseInt(s)` with no radix: leading white space skipped, an optional sign,
      then as many digits as there are, hexadecimal after a "0x" or "0X" prefix
      and decimal otherwise; no digit at all gives NaN (None). */
  function ParseInt(s: string): (r: Option<int>)
    ensures r.Some? <==> Magnitude(SignlessPart(TrimStart(s))).Some?
  {
    var t := TrimStart(s);
    match Magnitude(SignlessPart(t))
    case None => None
    case Some(v) => if |t| > 0 && t[0] == '-' then Some(-(v as int)) else Some(v as int)
  }

  /** `parseInt` of a string with no leading white space negates the magnitude after a minus sign. */
  lemma ParseIntOfMagnitude(s: string, v: nat)
    requires |s| > 0 && !IsWhitespace(s[0])
    requires Magnitude(SignlessPart(s)) == Some(v)
    ensures ParseInt(s) == Some(if s[0] == '-' then -(v as int) else v as int)
  {
    NotWhitespaceFirst(s);
  }

  /** The hexadecimal prefix at work: "0x7E8" reads as 2024. */
  lemma HexPrefixExample()
    ensures ParseInt("0x7E8").Some? && ParseInt("0x7E8").value == 2024
    ensures ParseInt("-0X1a").Some? && ParseInt("-0X1a").value == -26
  {
    HexOf7E8();
    HexOf1a();
  }

  lemma HexOf7E8()
    ensures ParseInt("0x7E8").Some? && ParseInt("0x7E8").value == 2024
  {
    MagnitudeOf0x7E8();
    ParseUnsignedHex("0x7E8", 2024);
  }

  lemma MagnitudeOf0x7E8()
    ensures Magnitude("0x7E8") == Some(2024)
  {
    assert HexPrefixed("0x7E8") && "0x7E8"[2..] == "7E8";
    assert LeadingHexDigits("7E8") == "7E8" by {
      assert LeadingHexDigits("8") == "8";
      assert LeadingHexDigits("E8") == "E8";
    }
    assert HexDigitsValue("7E8") == 2024 by {
      assert "7E8"[..2] == "7E" && "7E"[..1] == "7" && "7"[..0] == "";
    }
  }

  lemma HexOf1a()
    ensures ParseInt("-0X1a").Some? && ParseInt("-0X1a").value == -26
  {
    MagnitudeOf0X1a();
    assert "-0X1a"[0] == '-' && "-0X1a"[1..] == "0X1a";
    ParseIntOfMagnitude("-0X1a", 26);
  }

  lemma MagnitudeOf0X1a()
    ensures Magnitude("0X1a") == Some(26)
  {
    assert HexPrefixed("0X1a") && "0X1a"[2..] == "1a";
    assert LeadingHexDigits("1a") == "1a" by {
      assert LeadingHexDigits("a") == "a";
    }
    assert HexDigitsValue("1a") == 26 by {
      assert "1a"[..1] == "1" && "1"[..0] == "";
    }
  }

  /** "0x" with no hexadecimal digit after it is NaN rather than 0, while "0y"
      is the decimal 0 followed by other text. */
  lemma HexPrefixWithoutDigits()
    ensures ParseInt("0x") == None
    ensures ParseInt("0xg") == None
    ensures ParseInt("0y") == Some(0)
  {
    NotWhitespaceFirst("0x");
    NotWhitespaceFirst("0xg");
    NotWhitespaceFirst("0y");
    assert LeadingDigits("0y") == "0";
    assert DigitsValue("0") == 0 by {
      assert "0"[..0] == "";
    }
  }

  /** What follows an optional leading sign. */
  function SignlessPart(t: string): (r: string)
    ensures r == t || (|t| > 0 && (t[0] == '-' || t[0] == '+') && r == t[1..])
  {
    if |t| > 0 && (t[0] == '-' || t[0] == '+') then t[1..] else t
  }

  lemma {:induction false} NatToStringValue(n: nat)
    ensures DigitsValue(NatToString(n)) == n
    decreases n
  {
    var s := NatToString(n);
    if n >= 10 {
      NatToStringValue(n / 10);
      assert s[..|s| - 1] == NatToString(n / 10);
    }
  }

  lemma {:induction false} LeadingDigitsOfNumeral(s: string, tail: string)
    requires AllDigits(s)
    requires tail == [] || !IsDigit(tail[0])
    ensures LeadingDigits(s + tail) == s
    decreases |s|
  {
    if s != [] {
      LeadingDigitsOfNumeral(s[1..], tail);
      assert (s + tail)[1..] == s[1..] + tail;
    }
  }

  /** A signed numeral starts with neither white space nor a plus sign. */
  lemma SignedNumeralParts(negative: bool, digits: string, tail: string)
    requires |digits| >= 1 && AllDigits(digits)
    ensures var s := (if negative then "-" else "") + digits + tail;
      && |s| > 0 && !IsWhitespace(s[0])
      && SignlessPart(s) == digits + tail
      && (s[0] == '-') == negative
  {
    var body := digits + tail;
    assert body[0] == digits[0] && IsDigit(body[0]);
    if negative {
      var s := "-" + body;
      assert s == "-" + digits + tail;
      assert s[0] == '-' && s[1..] == body;
    } else {
      assert "" + digits + tail == body;
    }
  }

  /** `TrimStart` leaves alone a string that does not start with white space. */
  lemma NotWhitespaceFirst(s: string)
    requires |s| > 0 && !IsWhitespace(s[0])
    ensures TrimStart(s) == s
  {
  }

  /** `parseInt` reads back a sign and a string of digits, even with a non-digit after them. */
  lemma ParseSignedDigits(negative: bool, digits: string, tail: string)
    requires |digits| >= 1 && AllDigits(digits)
    requires tail == [] || !IsDigit(tail[0])
    requires !HexPrefixed(digits + tail)
    ensures var r := ParseInt((if negative then "-" else "") + digits + tail);
      && r.Some?
      && r.value == if negative then -(DigitsValue(digits) as int) else DigitsValue(digits) as int
  {
    var s := (if negative then "-" else "") + digits + tail;
    SignedNumeralParts(negative, digits, tail);
    LeadingDigitsOfNumeral(digits, tail);
    ParseIntUnfold(s, digits);
  }

  /** `parseInt` of a string with no leading white space whose digits after the sign are `digits`. */
  lemma ParseIntUnfold(s: string, digits: string)
    requires |s| > 0 && !IsWhitespace(s[0])
    requires !HexPrefixed(SignlessPart(s))
    requires digits != [] && LeadingDigits(SignlessPart(s)) == digits
    ensures ParseInt(s).Some?
    ensures ParseInt(s).value == if s[0] == '-' then -(DigitsValue(digits) as int) else DigitsValue(digits) as int
  {
    assert Magnitude(SignlessPart(s)) == Some(DigitsValue(digits));
    ParseIntOfMagnitude(s, DigitsValue(digits));
  }

  lemma {:induction false} LeadingHexOfNumeral(h: string, tail: string)
    requires AllHexDigits(h)
    requires tail == [] || !IsHexDigit(tail[0])
    ensures LeadingHexDigits(h + tail) == h
    decreases |h|
  {
    if h != [] {
      LeadingHexOfNumeral(h[1..], tail);
      assert (h + tail)[1..] == h[1..] + tail;
    }
  }

  /** `parseInt` reads a sign, "0x" or "0X", and hexadecimal digits in base 16,
      even with a non-hexadecimal character after them. */
  lemma ParseHexDigits(x: char, h: string, tail: string)
    requires x == 'x' || x == 'X'
    requires |h| >= 1 && AllHexDigits(h)
    requires tail == [] || !IsHexDigit(tail[0])
    ensures ParseInt(['0', x] + h + tail).Some?
    ensures ParseInt(['0', x] + h + tail).value == HexDigitsValue(h) as int
    ensures ParseInt("-" + (['0', x] + h + tail)).Some?
    ensures ParseInt("-" + (['0', x] + h + tail)).value == -(HexDigitsValue(h) as int)
  {
    HexMagnitude(x, h, tail);
    ParseUnsignedHex(['0', x] + h + tail, HexDigitsValue(h));
    ParseNegatedHex(['0', x] + h + tail, HexDigitsValue(h));
  }

  lemma ParseUnsignedHex(body: string, v: nat)
    requires |body| >= 1 && body[0] == '0'
    requires Magnitude(body) == Some(v)
    ensures ParseInt(body) == Some(v as int)
  {
    assert SignlessPart(body) == body;
    ParseIntOfMagnitude(body, v);
  }

  lemma ParseNegatedHex(body: string, v: nat)
    requires |body| >= 1 && body[0] == '0'
    requires Magnitude(body) == Some(v)
    ensures ParseInt("-" + body) == Some(-(v as int))
  {
    var s := "-" + body;
    assert s[0] == '-' && s[1..] == body;
    ParseIntOfMagnitude(s, v);
  }

  /** "0x" or "0X" and hexadecimal digits spell the base-16 value of the digits. */
  lemma HexMagnitude(x: char, h: string, tail: string)
    requires x == 'x' || x == 'X'
    requires |h| >= 1 && AllHexDigits(h)
    requires tail == [] || !IsHexDigit(tail[0])
    ensures Magnitude(['0', x] + h + tail) == Some(HexDigitsValue(h))
  {
    var rest := h + tail;
    assert ['0', x] + h + tail == ['0', x] + rest;
    HexPrefixParts(x, rest);
    HexRunOfNumeral(h, tail);
    MagnitudeOfHex(['0', x] + rest, HexDigitsValue(h));
  }

  lemma HexPrefixParts(x: char, rest: string)
    requires x == 'x' || x == 'X'
    ensures HexPrefixed(['0', x] + rest) && (['0', x] + rest)[2..] == rest
  {
  }

  lemma HexRunOfNumeral(h: string, tail: string)
    requires |h| >= 1 && AllHexDigits(h)
    requires tail == [] || !IsHexDigit(tail[0])
    ensures HexRun(h + tail) == Some(HexDigitsValue(h))
  {
    LeadingHexOfNumeral(h, tail);
  }

  lemma MagnitudeOfHex(body: string, v: nat)
    requires HexPrefixed(body) && HexRun(body[2..]) == Some(v)
    ensures Magnitude(body) == Some(v)
  {
  }



  /** `parseInt` reads back a bare numeral or a minus sign before one. */
  lemma ParseNumeral(negative: bool, digits: string)
    requires |digits| >= 1 && AllDigits(digits)
    requires |digits| > 1 ==> digits[0] != '0'
    ensures var r := ParseInt((if negative then "-" else "") + digits);
      && r.Some?
      && r.value == if negative then -(DigitsValue(digits) as int) else DigitsValue(digits) as int
  {
    assert digits + [] == digits;
    ParseSignedDigits(negative, digits, []);
    assert (if negative then "-" else "") + digits + [] == (if negative then "-" else "") + digits;
  }

  /** `parseInt` reads back the numeral of a natural number. */
  lemma ParseNatRoundTrip(n: nat)
    ensures ParseInt(NatToString(n)) == Some(n as int)
  {
    NatToStringValue(n);
    ParseNumeral(false, NatToString(n));
    assert "" + NatToString(n) == NatToString(n);
  }

  /** `parseInt` reads back a minus sign before the numeral of a natural number. */
  lemma ParseNegatedRoundTrip(n: nat)
    ensures ParseInt("-" + NatToString(n)) == Some(-(n as int))
  {
    var digits := NatToString(n);
    NatToStringValue(n);
    ParseNegatedNumeral(digits);
    var r := ParseInt("-" + digits);
    assert r.value == -(n as int);
  }

  lemma ParseNegatedNumeral(digits: string)
    requires |digits| >= 1 && AllDigits(digits)
    requires |digits| > 1 ==> digits[0] != '0'
    ensures ParseInt("-" + digits).Some? && ParseInt("-" + digits).value == -(DigitsValue(digits) as int)
  {
    ParseNumeral(true, digits);
  }

  /** `parseInt` reads back what `${i}` printed. */
  lemma ParseIntRoundTrip(i: int)
    ensures ParseInt(IntToString(i)) == Some(i)
  {
    if i < 0 {
      assert IntToString(i) == "-" + NatToString(-i);
      ParseNegatedRoundTrip(-i);
    } else {
      assert IntToString(i) == NatToString(i);
      ParseNatRoundTrip(i);
    }
  }

  lemma IntToStringInjective(a: int, b: int)
    ensures IntToString(a) == IntToString(b) <==> a == b
  {
    ParseIntRoundTrip(a);
    ParseIntRoundTrip(b);
  }

  lemma NatToStringInjective(a: nat, b: nat)
    ensures NatToString(a) == NatToString(b) <==> a == b
  {
    NatToStringValue(a);
    NatToStringValue(b);
  }
}
