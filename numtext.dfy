/**
 * The two conversions between text and integers the result logic relies on: JavaScript's
 * parseInt(text, 10), which yields NaN (here None) when no digits follow the optional sign, and
 * the decimal form a template literal gives an integer-valued Number.
 */
module NumberText {
  import opened Wrappers

  predicate IsDigit(ch: char)
  {
    '0' <= ch <= '9'
  }

  /** The characters parseInt skips before the sign: white space and line terminators. */
  predicate IsWhiteSpace(ch: char)
  {
    ch == ' ' || ch == '\t' || ch == '\n' || ch == '\r' || ch == '\U{B}' || ch == '\U{C}'
    || ch == '\U{A0}' || ch == '\U{1680}' || ('\U{2000}' <= ch <= '\U{200A}')
    || ch == '\U{2028}' || ch == '\U{2029}' || ch == '\U{202F}' || ch == '\U{205F}'
    || ch == '\U{3000}' || ch == '\U{FEFF}'
  }

  function DigitValue(ch: char): nat
    requires IsDigit(ch)
  {
    ch as int - '0' as int
  }

  function DigitChar(d: nat): (ch: char)
    requires d < 10
    ensures IsDigit(ch) && DigitValue(ch) == d
  {
    ('0' as int + d) as char
  }

  /** What is left of s once its leading white space is removed. */
  function TrimStart(s: string): (r: string)
    ensures |r| <= |s| && r == s[|s| - |r|..]
    ensures forall i :: 0 <= i < |s| - |r| ==> IsWhiteSpace(s[i])
    ensures r == [] || !IsWhiteSpace(r[0])
  {
    if s != [] && IsWhiteSpace(s[0]) then TrimStart(s[1..]) else s
  }

  /** The length of the longest prefix of s made only of digits. */
  function DigitPrefixLength(s: string): (k: nat)
    ensures k <= |s|
    ensures forall i :: 0 <= i < k ==> IsDigit(s[i])
    ensures k < |s| ==> !IsDigit(s[k])
  {
    if s != [] && IsDigit(s[0]) then 1 + DigitPrefixLength(s[1..]) else 0
  }

  /** The value of a string of decimal digits, most significant first. */
  function DigitsValue(s: string): nat
    requires forall i :: 0 <= i < |s| ==> IsDigit(s[i])
  {
    if s == [] then 0 else 10 * DigitsValue(s[..|s| - 1]) + DigitValue(s[|s| - 1])
  }

  /**
   * parseInt(s, 10): skip white space, read one optional sign, then as many digits as follow. Text
   * without a single digit is NaN.
   */
  function ParseInt(s: string): (r: Option<int>)
    ensures (forall i :: 0 <= i < |s| ==> !IsDigit(s[i])) ==> r == None
  {
    ParseSigned(TrimStart(s))
  }

  /** An optional sign followed by the digits ParseDigits reads; a minus sign negates the value. */
  function ParseSigned(t: string): Option<int>
  {
    var magnitude := ParseDigits(Unsigned(t));
    if magnitude == None then None
    else if t[0] == '-' then Some(-(magnitude.value as int))
    else Some(magnitude.value as int)
  }

  /** The value of the digits at the start of u, or None when u does not start with a digit. */
  function ParseDigits(u: string): Option<nat>
  {
    var k := DigitPrefixLength(u);
    if k == 0 then None else Some(DigitsValue(u[..k]))
  }

  /** s without its leading sign character, if it has one. */
  function Unsigned(s: string): (r: string)
    ensures |r| <= |s| && r == s[|s| - |r|..]
  {
    if s != [] && (s[0] == '+' || s[0] == '-') then s[1..] else s
  }

  /** The decimal digits of n, with no leading zero. */
  function NatToString(n: nat): (r: string)
    ensures r != [] && (forall i :: 0 <= i < |r| ==> IsDigit(r[i]))
    ensures DigitsValue(r) == n
    ensures r[0] == '0' ==> r == "0"
  {
    if n < 10 then [DigitChar(n)]
    else
      var r := NatToString(n / 10) + [DigitChar(n % 10)];
      assert r[..|r| - 1] == NatToString(n / 10);
      r
  }

  /** The text of an integer-valued Number: a minus sign before the digits of a negative one. */
  function IntToString(x: int): (r: string)
    ensures r != [] && (r[0] == '-' <==> x < 0)
    ensures var digits := if x < 0 then r[1..] else r;
      digits != [] && (forall i :: 0 <= i < |digits| ==> IsDigit(digits[i]))
      && DigitsValue(digits) == (if x < 0 then -x else x)
      && (digits[0] == '0' ==> x == 0 && r == "0")
  {
    if x < 0 then "-" + NatToString(-x) else NatToString(x)
  }

  /** The text of a Number that may be NaN: "NaN" exactly for NaN. */
  function NumberToString(v: Option<int>): (r: string)
    ensures r == "NaN" <==> v == None
  {
    match v
    case None => "NaN"
    case Some(x) => IntToStringNotNaN(x); IntToString(x)
  }

  /**
   * Reading back the text of an integer gives that integer, whatever white space comes before it
   * and whatever non-digit text comes after it.
   */
  lemma ParseIntToString(ws: string, x: int, rest: string)
    requires forall i :: 0 <= i < |ws| ==> IsWhiteSpace(ws[i])
    requires rest == [] || !IsDigit(rest[0])
    ensures ParseInt(ws + IntToString(x) + rest) == Some(x)
  {
    var t := IntToString(x) + rest;
    assert ws + IntToString(x) + rest == ws + t;
    TrimStartSkips(ws, t);
    ParseSignedText(x, rest);
  }

  lemma ParseSignedText(x: int, rest: string)
    requires rest == [] || !IsDigit(rest[0])
    ensures ParseSigned(IntToString(x) + rest) == Some(x)
  {
    if x < 0 {
      var u := NatToString(-x) + rest;
      assert ParseDigits(u) == Some(-x) by {
        ParseDigitsText(NatToString(-x), rest);
      }
      assert IntToString(x) + rest == "-" + u;
      MinusSign(u);
    } else {
      ParseNonNegative(NatToString(x), rest);
    }
  }

  /** A leading minus sign negates whatever the digits after it give. */
  lemma MinusSign(u: string)
    ensures ParseSigned("-" + u) == match ParseDigits(u) case None => None case Some(m) => Some(-(m as int))
  {
    DropFirst('-', u);
  }

  lemma DropFirst(c: char, u: string)
    ensures ([c] + u)[0] == c && ([c] + u)[1..] == u
  {
  }

  lemma ParseNonNegative(digits: string, rest: string)
    requires digits != [] && forall i :: 0 <= i < |digits| ==> IsDigit(digits[i])
    requires rest == [] || !IsDigit(rest[0])
    ensures ParseSigned(digits + rest) == Some(DigitsValue(digits) as int)
  {
    assert Unsigned(digits + rest) == digits + rest;
    ParseDigitsText(digits, rest);
  }

  lemma ParseDigitsText(digits: string, rest: string)
    requires digits != [] && forall i :: 0 <= i < |digits| ==> IsDigit(digits[i])
    requires rest == [] || !IsDigit(rest[0])
    ensures ParseDigits(digits + rest) == Some(DigitsValue(digits))
  {
    DigitPrefixOf(digits, rest);
    assert (digits + rest)[..|digits|] == digits;
  }

  /** The text of an integer on its own reads back as that integer. */
  lemma ParseIntOfText(x: int)
    ensures ParseInt(IntToString(x)) == Some(x)
  {
    var s := IntToString(x);
    assert s + [] == s;
    ParseSignedText(x, []);
    IntToStringStart(x);
    TrimStartKeeps(s);
  }

  lemma TrimStartKeeps(t: string)
    requires t != [] && !IsWhiteSpace(t[0])
    ensures TrimStart(t) == t
  {
  }

  /** The text of an integer starts with a minus sign or a digit, never with white space. */
  lemma IntToStringStart(x: int)
    ensures !IsWhiteSpace(IntToString(x)[0])
  {
    var c := IntToString(x)[0];
    assert c == '-' || IsDigit(c);
  }

  lemma {:induction false} TrimStartSkips(ws: string, t: string)
    requires forall i :: 0 <= i < |ws| ==> IsWhiteSpace(ws[i])
    requires t != [] && !IsWhiteSpace(t[0])
    ensures TrimStart(ws + t) == t
  {
    if ws != [] {
      assert (ws + t)[1..] == ws[1..] + t;
      TrimStartSkips(ws[1..], t);
    }
  }

  lemma {:induction false} DigitPrefixOf(digits: string, rest: string)
    requires forall i :: 0 <= i < |digits| ==> IsDigit(digits[i])
    requires rest == [] || !IsDigit(rest[0])
    ensures DigitPrefixLength(digits + rest) == |digits|
  {
    if digits != [] {
      assert (digits + rest)[1..] == digits[1..] + rest;
      DigitPrefixOf(digits[1..], rest);
    }
  }

  /** Text that starts with anything but white space, a sign or a digit parses to NaN. */
  lemma ParseIntOfWord(s: string)
    requires s != [] && !IsWhiteSpace(s[0]) && !IsDigit(s[0]) && s[0] != '+' && s[0] != '-'
    ensures ParseInt(s) == None
  {
  }

  /** Different integers have different texts. */
  lemma IntToStringInjective(x: int, y: int)
    requires IntToString(x) == IntToString(y)
    ensures x == y
  {
    ParseIntOfText(x);
    ParseIntOfText(y);
  }

  /** A NaN is never printed like an integer. */
  lemma NumberToStringInjective(a: Option<int>, b: Option<int>)
    requires NumberToString(a) == NumberToString(b)
    ensures a == b
  {
    if a.Some? && b.Some? {
      IntToStringInjective(a.value, b.value);
    }
  }

  /** The text of an integer starts with a minus sign or a digit, so it is never "NaN". */
  lemma IntToStringNotNaN(x: int)
    ensures IntToString(x) != "NaN"
  {
    var r := IntToString(x);
    assert r[0] == '-' || IsDigit(r[0]);
    assert "NaN"[0] == 'N';
  }
}
