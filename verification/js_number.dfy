/**
 * JavaScript's global `parseInt(string)` with no radix argument, and the
 * auto-sync interval the settings panel derives from it
 * (`parseInt(value) || 10`).
 *
 * `NaN` is `None`. Negative zero is not distinguished from zero: the only
 * consumer treats both as falsy.
 */
module JsNumber {
  import opened Base
  import opened Text

  /** The characters `parseInt` skips at the front (ECMAScript WhiteSpace and LineTerminator). */
  predicate IsJsWhitespace(c: char) {
    var u := c as int;
    u == 0x09 || u == 0x0A || u == 0x0B || u == 0x0C || u == 0x0D || u == 0x20
    || u == 0xA0 || u == 0x1680 || (0x2000 <= u <= 0x200A)
    || u == 0x2028 || u == 0x2029 || u == 0x202F || u == 0x205F
    || u == 0x3000 || u == 0xFEFF
  }

  /** The input with its leading whitespace removed. */
  function TrimStart(s: string): (r: string)
    ensures |r| <= |s| && r == s[|s| - |r|..]
    ensures forall i :: 0 <= i < |s| - |r| ==> IsJsWhitespace(s[i])
    ensures r != [] ==> !IsJsWhitespace(r[0])
  {
    if s != [] && IsJsWhitespace(s[0]) then TrimStart(s[1..]) else s
  }

  /** The value of a digit character in bases up to 36, or `None`. */
  function DigitValue(c: char): Option<nat> {
    if '0' <= c <= '9' then Some(c as int - '0' as int)
    else if 'a' <= c <= 'z' then Some(c as int - 'a' as int + 10)
    else if 'A' <= c <= 'Z' then Some(c as int - 'A' as int + 10)
    else None
  }

  predicate IsRadixDigit(c: char, radix: nat) {
    DigitValue(c).Some? && DigitValue(c).value < radix
  }

  /** Length of the longest prefix made of digits of the radix. */
  function DigitPrefixLength(s: string, radix: nat): (n: nat)
    ensures n <= |s|
    ensures forall i :: 0 <= i < n ==> IsRadixDigit(s[i], radix)
    ensures n < |s| ==> !IsRadixDigit(s[n], radix)
  {
    if s != [] && IsRadixDigit(s[0], radix) then 1 + DigitPrefixLength(s[1..], radix) else 0
  }

  /** The value of a string of digits in the radix. Only digit strings are given to it; any other character would count as 0. */
  function ValueIn(s: string, radix: nat): nat {
    if s == [] then 0
    else ValueIn(s[..|s| - 1], radix) * radix + DigitValue(s[|s| - 1]).GetOr(0)
  }

  /** The unsigned part of `parseInt`: optional `0x`/`0X` hex prefix, then the longest digit run. */
  function ParseMagnitude(u: string): Option<nat> {
    var hex := |u| >= 2 && u[0] == '0' && (u[1] == 'x' || u[1] == 'X');
    var radix := if hex then 16 else 10;
    var body := if hex then u[2..] else u;
    var n := DigitPrefixLength(body, radix);
    if n == 0 then None else Some(ValueIn(body[..n], radix))
  }

  /** `parseInt(s)`: leading whitespace, an optional sign, then the magnitude. */
  function ParseInt(s: string): Option<int> {
    var t := TrimStart(s);
    if t != [] && t[0] == '-' then
      match ParseMagnitude(t[1..])
      case None => None
      case Some(v) => Some(-(v as int))
    else
      match ParseMagnitude(if t != [] && t[0] == '+' then t[1..] else t)
      case None => None
      case Some(v) => Some(v)
  }

  lemma {:induction false} ValueInDecimal(s: string)
    requires forall i :: 0 <= i < |s| ==> IsDigit(s[i])
    ensures forall i :: 0 <= i < |s| ==> IsRadixDigit(s[i], 10)
    ensures ValueIn(s, 10) == DecimalValue(s)
  {
    if s != [] {
      ValueInDecimal(s[..|s| - 1]);
    }
  }

  lemma {:induction false} DigitPrefixOfDecimal(d: string, rest: string)
    requires forall i :: 0 <= i < |d| ==> IsDigit(d[i])
    requires rest == [] || !IsDigit(rest[0])
    ensures DigitPrefixLength(d + rest, 10) == |d|
  {
    if d == [] {
      assert d + rest == rest;
    } else {
      DigitPrefixOfDecimal(d[1..], rest);
      assert (d + rest)[1..] == d[1..] + rest;
      assert IsRadixDigit((d + rest)[0], 10);
    }
  }

  lemma MagnitudeOfRendered(n: nat, rest: string)
    requires rest == [] || !IsDigit(rest[0])
    requires n == 0 && rest != [] ==> rest[0] != 'x' && rest[0] != 'X'
    ensures ParseMagnitude(NatToString(n) + rest) == Some(n)
  {
    var d := NatToString(n);
    var s := d + rest;
    assert !(|s| >= 2 && s[0] == '0' && (s[1] == 'x' || s[1] == 'X')) by {
      if |s| >= 2 && s[0] == '0' {
        assert n == 0 && d == "0";
        assert s[1] == rest[0];
      }
    }
    DigitPrefixOfDecimal(d, rest);
    assert s[..|d|] == d;
    ValueInDecimal(d);
    DecimalValueOfNatToString(n);
  }

  /**
   * `parseInt` reads back a rendered number and stops at the first non-digit
   * ("15.5" reads as 15). A zero followed by `x` is the exception: "0x1f"
   * switches to hexadecimal.
   */
  lemma ParseIntOfRendered(n: nat, rest: string)
    requires rest == [] || !IsDigit(rest[0])
    requires n == 0 && rest != [] ==> rest[0] != 'x' && rest[0] != 'X'
    ensures ParseInt(NatToString(n) + rest) == Some(n)
  {
    var s := NatToString(n) + rest;
    assert s[0] == NatToString(n)[0] && IsDigit(s[0]);
    assert !IsJsWhitespace(s[0]) && s[0] != '-' && s[0] != '+';
    assert TrimStart(s) == s;
    MagnitudeOfRendered(n, rest);
  }

  /** A leading minus sign negates. */
  lemma ParseIntOfNegative(n: nat)
    ensures ParseInt("-" + NatToString(n)) == Some(-(n as int))
  {
    var s := "-" + NatToString(n);
    assert TrimStart(s) == s;
    assert s[1..] == NatToString(n) + [];
    MagnitudeOfRendered(n, []);
  }

  /**
   * The auto-sync interval in minutes: the parsed setting, or 10 when it does
   * not parse or parses to zero (both falsy in `parseInt(v) || 10`).
   */
  function IntervalMinutes(setting: string): (minutes: int)
    ensures minutes != 0
    ensures ParseInt(setting).None? ==> minutes == 10
    ensures ParseInt(setting) == Some(0) ==> minutes == 10
    ensures ParseInt(setting).Some? && ParseInt(setting).value != 0 ==> minutes == ParseInt(setting).value
  {
    match ParseInt(setting)
    case None => 10
    case Some(v) => if v == 0 then 10 else v
  }

  /** A positive whole number of minutes typed into the field is used as is. */
  lemma IntervalOfTypedMinutes(n: nat)
    requires n > 0
    ensures IntervalMinutes(NatToString(n)) == n
  {
    ParseIntOfRendered(n, []);
    assert NatToString(n) + [] == NatToString(n);
  }

  /** An empty field, and one holding zero, both fall back to ten minutes. */
  lemma IntervalDefaults()
    ensures IntervalMinutes("") == 10
    ensures IntervalMinutes("0") == 10
  {
    assert TrimStart("") == "";
    assert ParseMagnitude("") == None;
    ParseIntOfRendered(0, []);
    assert NatToString(0) + [] == "0";
  }
}
