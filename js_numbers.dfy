/**
 * The JavaScript number conversions the controllers apply to request text:
 * `Number(s)`, `parseInt(s)` and `n.toString()`, restricted to integers.
 * A conversion that JavaScript answers with NaN is kept as `NaN` here.
 */
module JsNumbers {
  import opened Wrappers

  datatype Num = Finite(value: int) | NaN

  predicate IsDigit(c: char) {
    '0' <= c <= '9'
  }

  predicate AllDigits(s: string) {
    forall i :: 0 <= i < |s| ==> IsDigit(s[i])
  }

  function DigitValue(c: char): nat
    requires IsDigit(c)
  {
    c as int - '0' as int
  }

  function DigitChar(d: nat): (c: char)
    requires d < 10
    ensures IsDigit(c) && DigitValue(c) == d
  {
    ('0' as int + d) as char
  }

  /** The value of a string of decimal digits, most significant first. */
  function DigitsValue(s: string): nat
    requires AllDigits(s)
    decreases |s|
  {
    if s == [] then 0 else DigitsValue(s[..|s| - 1]) * 10 + DigitValue(s[|s| - 1])
  }

  /** `Number(s)`: "" is 0, an optionally signed digit string is its value, anything else NaN. */
  function JsNumber(s: string): Num {
    if s == "" then Finite(0)
    else if (s[0] == '-' || s[0] == '+') && |s| > 1 && AllDigits(s[1..]) then
      Finite(if s[0] == '-' then -(DigitsValue(s[1..]) as int) else DigitsValue(s[1..]))
    else if AllDigits(s) then Finite(DigitsValue(s))
    else NaN
  }

  /** The longest prefix of `s` made of digits. */
  function LeadingDigits(s: string): (d: string)
    ensures AllDigits(d) && d <= s
    ensures |d| < |s| ==> !IsDigit(s[|d|])
  {
    if s != [] && IsDigit(s[0]) then [s[0]] + LeadingDigits(s[1..]) else []
  }

  /** The white space and line terminators `parseInt` skips before the number. */
  predicate IsSpace(c: char) {
    c == '\t' || c == '\n' || c == '\U{000B}' || c == '\U{000C}' || c == '\r' || c == ' ' ||
    c == '\U{00A0}' || c == '\U{1680}' || ('\U{2000}' <= c <= '\U{200A}') || c == '\U{2028}' || c == '\U{2029}' ||
    c == '\U{202F}' || c == '\U{205F}' || c == '\U{3000}' || c == '\U{FEFF}'
  }

  /** `s` without its leading white space. */
  function TrimStart(s: string): (t: string)
    ensures t == [] || !IsSpace(t[0])
    decreases |s|
  {
    if s != [] && IsSpace(s[0]) then TrimStart(s[1..]) else s
  }

  predicate IsHexDigit(c: char) {
    IsDigit(c) || 'a' <= c <= 'f' || 'A' <= c <= 'F'
  }

  predicate AllHexDigits(s: string) {
    forall i :: 0 <= i < |s| ==> IsHexDigit(s[i])
  }

  function HexDigitValue(c: char): (v: nat)
    requires IsHexDigit(c)
    ensures v < 16
  {
    if IsDigit(c) then DigitValue(c)
    else if 'a' <= c <= 'f' then c as int - 'a' as int + 10
    else c as int - 'A' as int + 10
  }

  /** The value of a string of hexadecimal digits, most significant first. */
  function HexValue(s: string): nat
    requires AllHexDigits(s)
    decreases |s|
  {
    if s == [] then 0 else HexValue(s[..|s| - 1]) * 16 + HexDigitValue(s[|s| - 1])
  }

  /** The longest prefix of `s` made of hexadecimal digits. */
  function LeadingHexDigits(s: string): (d: string)
    ensures AllHexDigits(d) && d <= s
    ensures |d| < |s| ==> !IsHexDigit(s[|d|])
  {
    if s != [] && IsHexDigit(s[0]) then [s[0]] + LeadingHexDigits(s[1..]) else []
  }

  predicate HasHexPrefix(s: string) {
    |s| >= 2 && s[0] == '0' && (s[1] == 'x' || s[1] == 'X')
  }

  /** The unsigned number at the start of `b`: hexadecimal after `0x`/`0X`, else decimal. */
  function Magnitude(b: string): Option<nat> {
    if HasHexPrefix(b) then
      var digits := LeadingHexDigits(b[2..]);
      if digits == [] then None else Some(HexValue(digits))
    else
      var digits := LeadingDigits(b);
      if digits == [] then None else Some(DigitsValue(digits))
  }

  /** An optional sign, then the magnitude. */
  function SignedMagnitude(t: string): Option<int> {
    if t != [] && t[0] == '-' then
      match Magnitude(t[1..])
      case None => None
      case Some(m) => Some(-(m as int))
    else if t != [] && t[0] == '+' then
      match Magnitude(t[1..])
      case None => None
      case Some(m) => Some(m as int)
    else
      match Magnitude(t)
      case None => None
      case Some(m) => Some(m as int)
  }

  /**
   * `parseInt(s)` without a radix: leading white space is skipped, then an
   * optional sign; a `0x`/`0X` prefix selects hexadecimal, otherwise the
   * decimal digits that follow are read. No digits is NaN (None).
   */
  function ParseInt(s: string): Option<int> {
    SignedMagnitude(TrimStart(s))
  }

  /** `parseInt(s) || d`: NaN and 0 are both falsy and give the default. */
  function ParseIntOr(s: Option<string>, d: int): (n: int)
    ensures n == d || (s.Some? && ParseInt(s.value) == Some(n) && n != 0)
    ensures (s.None? || ParseInt(s.value).None? || ParseInt(s.value) == Some(0)) ==> n == d
  {
    if s.None? then d
    else match ParseInt(s.value)
      case Some(v) => if v == 0 then d else v
      case None => d
  }

  /** `n.toString()` for a non-negative integer. */
  function DecimalString(n: nat): (s: string)
    ensures |s| >= 1 && AllDigits(s)
    decreases n
  {
    if n < 10 then [DigitChar(n)] else DecimalString(n / 10) + [DigitChar(n % 10)]
  }

  lemma {:induction false} DigitsOfDecimalString(n: nat)
    ensures DigitsValue(DecimalString(n)) == n
    decreases n
  {
    if n >= 10 {
      var s := DecimalString(n);
      DigitsOfDecimalString(n / 10);
      assert s[..|s| - 1] == DecimalString(n / 10);
    }
  }

  /** `Number(n.toString())` gives `n` back. */
  lemma NumberOfDecimalString(n: nat)
    ensures JsNumber(DecimalString(n)) == Finite(n)
  {
    DigitsOfDecimalString(n);
  }

  lemma {:induction false} LeadingDigitsOfDigits(s: string)
    requires AllDigits(s)
    ensures LeadingDigits(s) == s
    decreases |s|
  {
    if s != [] {
      LeadingDigitsOfDigits(s[1..]);
    }
  }

  lemma TrimStartOfNonSpace(s: string)
    requires s != [] && !IsSpace(s[0])
    ensures TrimStart(s) == s
  {
  }

  /** A non-empty digit string is read as its decimal value. */
  lemma ParseIntOfDigits(s: string)
    requires s != [] && AllDigits(s)
    ensures ParseInt(s) == Some(DigitsValue(s))
  {
    TrimStartOfNonSpace(s);
    LeadingDigitsOfDigits(s);
    assert !HasHexPrefix(s) by {
      if |s| >= 2 { assert IsDigit(s[1]); }
    }
    assert Magnitude(s) == Some(DigitsValue(s));
  }

  /** `parseInt(n.toString())` gives `n` back. */
  lemma ParseIntOfDecimalString(n: nat)
    ensures ParseInt(DecimalString(n)) == Some(n)
  {
    DigitsOfDecimalString(n);
    ParseIntOfDigits(DecimalString(n));
  }

  /** `parseInt` reads a digit prefix and ignores the rest: "12abc" is 12, "abc" is NaN. */
  lemma ParseIntExamples()
    ensures ParseInt("12abc") == Some(12)
    ensures ParseInt("abc") == None
    ensures ParseInt("-3") == Some(-3)
  {
    TrimStartOfNonSpace("12abc");
    assert LeadingDigits("12abc") == "12";
    assert DigitsValue("12") == 12 by { assert "12"[..1] == "1"; }
    TrimStartOfNonSpace("abc");
    TrimStartOfNonSpace("-3");
    assert LeadingDigits("3") == "3";
    assert "-3"[1..] == "3";
  }

  /** Leading white space makes no difference to `parseInt`. */
  lemma ParseIntSkipsSpace(c: char, s: string)
    requires IsSpace(c)
    ensures ParseInt([c] + s) == ParseInt(s)
  {
    assert ([c] + s)[1..] == s;
  }

  lemma {:induction false} LeadingHexDigitsOfHex(s: string)
    requires AllHexDigits(s)
    ensures LeadingHexDigits(s) == s
    decreases |s|
  {
    if s != [] {
      LeadingHexDigitsOfHex(s[1..]);
    }
  }

  lemma MagnitudeOfHex(h: string)
    requires h != [] && AllHexDigits(h)
    ensures Magnitude("0x" + h) == Some(HexValue(h))
  {
    LeadingHexDigitsOfHex(h);
    assert ("0x" + h)[2..] == h;
  }

  /** `parseInt("0x" + h)` reads `h` in base 16. */
  lemma ParseIntHex(h: string)
    requires h != [] && AllHexDigits(h)
    ensures ParseInt("0x" + h) == Some(HexValue(h))
  {
    var x := "0x" + h;
    MagnitudeOfHex(h);
    TrimStartOfNonSpace(x);
    assert x[0] == '0';
  }

  /** `parseInt("-0x" + h)` is the negation of `h` read in base 16. */
  lemma ParseIntNegativeHex(h: string)
    requires h != [] && AllHexDigits(h)
    ensures ParseInt("-0x" + h) == Some(-(HexValue(h) as int))
  {
    var y := "-0x" + h;
    MagnitudeOfHex(h);
    TrimStartOfNonSpace(y);
    assert y[1..] == "0x" + h;
  }

  /** `parseInt("0x10")` is 16, so `?page=0x10` asks for page 16; "0x" alone and "0xg" are NaN. */
  lemma ParseIntHexExamples()
    ensures ParseInt("0x10") == Some(16)
    ensures ParseIntOr(Some("0x10"), 1) == 16
    ensures ParseInt("0x") == None
    ensures ParseInt("0xg") == None
  {
    ParseIntHex("10");
    assert HexValue("10") == 16 by { assert "10"[..1] == "1"; }
    TrimStartOfNonSpace("0x");
    TrimStartOfNonSpace("0xg");
    assert "0xg"[2..] == "g";
  }

  /** `parseInt(" 42")` is 42. */
  lemma ParseIntSpaceExample()
    ensures ParseInt(" 42") == Some(42)
  {
    assert " 42" == [' '] + "42";
    ParseIntSkipsSpace(' ', "42");
    ParseIntOfDigits("42");
    assert DigitsValue("42") == 42 by { assert "42"[..1] == "4"; }
  }
}
