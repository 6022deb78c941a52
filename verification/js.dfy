/**
 * The pieces of JavaScript semantics the controllers lean on: truthiness of
 * optional request fields, the global `parseInt` (radix left undefined), and
 * the decimal text of a non-negative integer (`String(n)`).
 */
module Js {
  import opened Wrappers

  /** A request string is truthy unless it is absent (`undefined`, `null`) or `""`. */
  predicate Truthy(s: Option<string>) {
    s.Some? && s.value != ""
  }

  /** `!x || x === "null" || x === ""`: the values the account controller reads as "no role". */
  predicate NoRoleText(s: Option<string>) {
    !Truthy(s) || s.value == "null"
  }

  /** Characters `parseInt` skips before the number: white space and line terminators. */
  predicate IsWhiteSpace(c: char) {
    || c == ' ' || c == '\t' || c == '\n' || c == '\r' || c == '\U{0B}' || c == '\U{0C}'
    || c == '\U{A0}' || c == '\U{FEFF}' || c == '\U{1680}'
    || ('\U{2000}' <= c <= '\U{200A}')
    || c == '\U{2028}' || c == '\U{2029}' || c == '\U{202F}' || c == '\U{205F}' || c == '\U{3000}'
  }

  function TrimStart(s: string): (t: string)
    ensures |t| <= |s| && t == s[|s| - |t|..]
    ensures t == [] || !IsWhiteSpace(t[0])
    ensures forall i :: 0 <= i < |s| - |t| ==> IsWhiteSpace(s[i])
  {
    if s != [] && IsWhiteSpace(s[0]) then TrimStart(s[1..]) else s
  }

  /** The value of `c` as a digit (0-9, then letters a-z/A-Z for 10-35), if it is one. */
  function DigitValue(c: char): Option<nat> {
    if '0' <= c <= '9' then Some(c as int - '0' as int)
    else if 'a' <= c <= 'z' then Some(c as int - 'a' as int + 10)
    else if 'A' <= c <= 'Z' then Some(c as int - 'A' as int + 10)
    else None
  }

  predicate IsDigit(c: char, radix: nat) {
    DigitValue(c).Some? && DigitValue(c).value < radix
  }

  /** Length of the longest prefix of `s` made of digits of `radix`. */
  function DigitPrefixLength(s: string, radix: nat): (n: nat)
    ensures n <= |s|
    ensures forall i :: 0 <= i < n ==> IsDigit(s[i], radix)
    ensures n < |s| ==> !IsDigit(s[n], radix)
  {
    if s != [] && IsDigit(s[0], radix) then 1 + DigitPrefixLength(s[1..], radix) else 0
  }

  /** The number a string of `radix` digits denotes, most significant digit first. */
  function DigitsValue(s: string, radix: nat): nat
    requires forall i :: 0 <= i < |s| ==> IsDigit(s[i], radix)
  {
    if s == [] then 0
    else
      assert IsDigit(s[|s| - 1], radix);
      Scale(DigitsValue(s[..|s| - 1], radix), radix) + DigitValue(s[|s| - 1]).value
  }

  /** `a * b` on naturals, named so that the solver sees no product where it does not need one. */
  function Scale(a: nat, b: nat): nat { a * b }

  /** The text left after the optional sign: `-1` for a leading `-`, else `1`. */
  function SignOf(t: string): (r: (int, string))
    ensures r.0 == 1 || r.0 == -1
  {
    if t != [] && t[0] == '-' then (-1, t[1..])
    else if t != [] && t[0] == '+' then (1, t[1..])
    else (1, t)
  }

  /** A `0x`/`0X` prefix selects radix 16; otherwise radix 10. */
  function RadixOf(u: string): (r: (nat, string))
    ensures r.0 == 10 ==> r.1 == u
  {
    if |u| >= 2 && u[0] == '0' && (u[1] == 'x' || u[1] == 'X') then (16, u[2..]) else (10, u)
  }

  /**
   * `parseInt(s)` with no radix argument: skip leading white space, read an
   * optional sign and an optional hexadecimal prefix, then the longest run of
   * digits. `None` is `NaN` (no digit at all); trailing text is ignored.
   */
  function ParseInt(s: string): Option<int>
  {
    var (sign, unsigned) := SignOf(TrimStart(s));
    var (radix, body) := RadixOf(unsigned);
    var n := DigitPrefixLength(body, radix);
    if n == 0 then None else Some(sign * DigitsValue(body[..n], radix))
  }

  /** Blank text is `NaN`, and only a leading minus sign gives a negative number. */
  lemma ParseIntSign(s: string)
    ensures ParseInt(s).Some? ==> TrimStart(s) != []
    ensures ParseInt(s).Some? && ParseInt(s).value < 0 ==> TrimStart(s)[0] == '-'
  {
    var (sign, unsigned) := SignOf(TrimStart(s));
    var (radix, body) := RadixOf(unsigned);
    var n := DigitPrefixLength(body, radix);
    if n > 0 && sign == 1 {
      assert ParseInt(s) == Some(1 * DigitsValue(body[..n], radix));
    }
  }

  function DigitChar(d: nat): (c: char)
    requires d < 10
    ensures IsDigit(c, 10) && DigitValue(c) == Some(d)
  {
    ('0' as int + d) as char
  }

  /** `String(n)` for a non-negative integer: its decimal digits without leading zeros. */
  function ToDecimal(n: nat): (s: string)
    ensures s != []
    ensures forall i :: 0 <= i < |s| ==> IsDigit(s[i], 10)
    ensures s[0] == '0' ==> n == 0
  {
    if n < 10 then [DigitChar(n)] else ToDecimal(n / 10) + [DigitChar(n % 10)]
  }

  lemma {:induction false} DecimalValue(n: nat)
    ensures DigitsValue(ToDecimal(n), 10) == n
  {
    if n >= 10 {
      var s := ToDecimal(n);
      assert s[..|s| - 1] == ToDecimal(n / 10);
      DecimalValue(n / 10);
    }
  }

  /** Reading back the decimal text of a non-negative integer yields that integer. */
  lemma ParseDecimal(n: nat)
    ensures ParseInt(ToDecimal(n)) == Some(n)
  {
    var s := ToDecimal(n);
    assert TrimStart(s) == s by {
      assert !IsWhiteSpace(s[0]) by { assert IsDigit(s[0], 10); }
    }
    assert SignOf(s) == (1, s) by { assert IsDigit(s[0], 10); }
    if n == 0 {
      assert s == [DigitChar(0)];
    }
    assert RadixOf(s) == (10, s);
    assert DigitPrefixLength(s, 10) == |s|;
    assert s[..|s|] == s;
    DecimalValue(n);
  }

  /**
   * Leading white space and trailing text that starts with neither a digit
   * nor a letter do not change what `parseInt` reads from a decimal number.
   */
  lemma ParseDecimalPadded(pad: string, n: nat, tail: string)
    requires forall i :: 0 <= i < |pad| ==> IsWhiteSpace(pad[i])
    requires tail == [] || DigitValue(tail[0]).None?
    ensures ParseInt(pad + ToDecimal(n) + tail) == Some(n)
  {
    var d := ToDecimal(n);
    var u := d + tail;
    assert pad + d + tail == pad + u;
    assert u[0] == d[0] && IsDigit(d[0], 10);
    TrimPadded(pad, u);
    UnsignedDecimal(n, tail);
    ReadsDigits(pad + u, u);
    DigitPrefixAppend(d, tail);
    assert u[..|d|] == d;
    DecimalValue(n);
  }

  /** Once the blanks are trimmed, text that starts with a decimal digit is read as its longest digit prefix. */
  lemma ReadsDigits(x: string, u: string)
    requires TrimStart(x) == u
    requires u != [] && IsDigit(u[0], 10)
    requires RadixOf(u) == (10, u)
    ensures ParseInt(x) == Some(DigitsValue(u[..DigitPrefixLength(u, 10)], 10))
  {
    assert SignOf(u) == (1, u);
  }

  lemma UnsignedDecimal(n: nat, tail: string)
    requires tail == [] || DigitValue(tail[0]).None?
    ensures RadixOf(ToDecimal(n) + tail) == (10, ToDecimal(n) + tail)
  {
    var d := ToDecimal(n);
    if n == 0 {
      assert d == [DigitChar(0)];
      if tail != [] {
        assert (d + tail)[1] == tail[0];
      }
    } else {
      assert (d + tail)[0] == d[0];
    }
  }

  lemma {:induction false} TrimPadded(pad: string, s: string)
    requires forall i :: 0 <= i < |pad| ==> IsWhiteSpace(pad[i])
    requires s != [] && !IsWhiteSpace(s[0])
    ensures TrimStart(pad + s) == s
  {
    if pad != [] {
      assert (pad + s)[1..] == pad[1..] + s;
      TrimPadded(pad[1..], s);
    } else {
      assert pad + s == s;
    }
  }

  lemma {:induction false} DigitPrefixAppend(d: string, tail: string)
    requires forall i :: 0 <= i < |d| ==> IsDigit(d[i], 10)
    requires tail == [] || !IsDigit(tail[0], 10)
    ensures DigitPrefixLength(d + tail, 10) == |d|
  {
    if d != [] {
      assert (d + tail)[1..] == d[1..] + tail;
      DigitPrefixAppend(d[1..], tail);
    } else {
      assert d + tail == tail;
    }
  }

  /**
   * `parseInt` yields `NaN` for text whose first non-blank character is no
   * digit, sign or zero, such as `"undefined"` (an absent field) or `"abc"`.
   */
  lemma ParseNoDigits(pad: string, s: string)
    requires forall i :: 0 <= i < |pad| ==> IsWhiteSpace(pad[i])
    requires s == [] || (!IsWhiteSpace(s[0]) && !IsDigit(s[0], 10) && s[0] != '-' && s[0] != '+')
    ensures ParseInt(pad + s) == None
  {
    if s == [] {
      TrimAll(pad);
      assert pad + s == pad;
    } else {
      TrimPadded(pad, s);
      assert SignOf(s) == (1, s);
      assert s[0] != '0' by { assert IsDigit('0', 10); }
      assert RadixOf(s) == (10, s);
    }
  }

  lemma {:induction false} TrimAll(pad: string)
    requires forall i :: 0 <= i < |pad| ==> IsWhiteSpace(pad[i])
    ensures TrimStart(pad) == []
  {
    if pad != [] {
      TrimAll(pad[1..]);
    }
  }
}
