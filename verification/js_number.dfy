/** JavaScript's global `parseInt(string)` without a radix argument, as used
    for cart quantities and for the search page number. `NaN` is `None`. */
module JsNumber {
  import opened Wrappers

  /** The characters `parseInt` skips at the front: white space and line
      terminators in the sense of ECMAScript's StrWhiteSpaceChar. */
  predicate IsStrWhiteSpace(c: char)
  {
    c == ' ' || c == '\t' || c == '\n' || c == '\r' || c == '\U{B}' || c == '\U{C}'
    || c == '\U{A0}' || c == '\U{1680}' || ('\U{2000}' <= c <= '\U{200A}')
    || c == '\U{2028}' || c == '\U{2029}' || c == '\U{202F}' || c == '\U{205F}'
    || c == '\U{3000}' || c == '\U{FEFF}'
  }

  function TrimStart(s: string): (r: string)
    ensures |r| <= |s| && r == s[|s| - |r|..]
    ensures |r| > 0 ==> !IsStrWhiteSpace(r[0])
  {
    if |s| > 0 && IsStrWhiteSpace(s[0]) then TrimStart(s[1..]) else s
  }

  predicate IsDigit(c: char, radix: nat)
  {
    if radix == 16 then '0' <= c <= '9' || 'a' <= c <= 'f' || 'A' <= c <= 'F'
    else '0' <= c <= '9'
  }

  function DigitValue(c: char): (d: nat)
    requires IsDigit(c, 10) || IsDigit(c, 16)
    ensures d < 16
    ensures IsDigit(c, 10) ==> d < 10
  {
    if '0' <= c <= '9' then c as int - '0' as int
    else if 'a' <= c <= 'f' then c as int - 'a' as int + 10
    else c as int - 'A' as int + 10
  }

  /** The longest prefix of `s` made of digits of the radix. */
  function DigitPrefix(s: string, radix: nat): (z: string)
    ensures |z| <= |s| && z == s[..|z|]
    ensures forall i :: 0 <= i < |z| ==> IsDigit(z[i], radix)
  {
    if |s| == 0 || !IsDigit(s[0], radix) then "" else [s[0]] + DigitPrefix(s[1..], radix)
  }

  /** The value of a digit string, most significant digit first. */
  function ValueOf(z: string, radix: nat): nat
    requires radix == 10 || radix == 16
    requires forall i :: 0 <= i < |z| ==> IsDigit(z[i], radix)
  {
    if |z| == 0 then 0
    else ValueOf(z[..|z| - 1], radix) * radix + DigitValue(z[|z| - 1])
  }

  /** `parseInt(s)`: skip leading white space, take an optional sign, and
      read the number that follows. */
  function ParseInt(s: string): Option<int>
  {
    var t := TrimStart(s);
    if |t| > 0 && t[0] == '-' then
      match ParseUnsigned(t[1..])
      case None => None
      case Some(v) => Some(-(v as int))
    else if |t| > 0 && t[0] == '+' then ParseUnsigned(t[1..])
    else ParseUnsigned(t)
  }

  /** The unsigned part of `parseInt`: a hexadecimal number after `0x` or
      `0X`, a decimal one otherwise, up to the first character that is not a
      digit. No digit at all is `NaN`. */
  function ParseUnsigned(u: string): Option<nat>
  {
    var hex := |u| >= 2 && u[0] == '0' && (u[1] == 'x' || u[1] == 'X');
    var radix := if hex then 16 else 10;
    var z := DigitPrefix(if hex then u[2..] else u, radix);
    if |z| == 0 then None else Some(ValueOf(z, radix))
  }

  function DigitChar(d: nat): (c: char)
    requires d < 10
    ensures IsDigit(c, 10) && DigitValue(c) == d
  {
    ('0' as int + d) as char
  }

  /** The decimal text of a natural number, without leading zeros. */
  function NatText(n: nat): (s: string)
    ensures |s| >= 1
    ensures forall i :: 0 <= i < |s| ==> IsDigit(s[i], 10)
  {
    if n < 10 then [DigitChar(n)] else NatText(n / 10) + [DigitChar(n % 10)]
  }

  /** `String(n)` for an integer `n`. */
  function DecimalText(n: int): string
  {
    if n < 0 then "-" + NatText(-n) else NatText(n)
  }

  lemma {:induction false} NatTextValue(n: nat)
    ensures ValueOf(NatText(n), 10) == n
  {
    if n >= 10 {
      NatTextValue(n / 10);
      var s := NatText(n);
      assert s[..|s| - 1] == NatText(n / 10);
    }
  }

  lemma {:induction false} NatTextLeadingDigit(n: nat)
    ensures NatText(n)[0] == '0' ==> n == 0
  {
    if n >= 10 {
      NatTextLeadingDigit(n / 10);
    }
  }

  lemma {:induction false} DigitPrefixOfDigits(z: string, tail: string, radix: nat)
    requires forall i :: 0 <= i < |z| ==> IsDigit(z[i], radix)
    requires |tail| == 0 || !IsDigit(tail[0], radix)
    ensures DigitPrefix(z + tail, radix) == z
  {
    if |z| > 0 {
      DigitPrefixOfDigits(z[1..], tail, radix);
      assert (z + tail)[1..] == z[1..] + tail;
      assert [z[0]] + z[1..] == z;
    } else {
      assert z + tail == tail;
    }
  }

  lemma ParseUnsignedReadsDecimal(m: nat, tail: string)
    requires |tail| == 0 || (!IsDigit(tail[0], 10) && tail[0] != 'x' && tail[0] != 'X')
    ensures ParseUnsigned(NatText(m) + tail) == Some(m)
  {
    var u := NatText(m) + tail;
    NatTextLeadingDigit(m);
    if |u| >= 2 && u[0] == '0' {
      assert m == 0 && u[1] == tail[0];
    }
    DigitPrefixOfDigits(NatText(m), tail, 10);
    NatTextValue(m);
  }

  /** `parseInt` reads back the decimal text of any integer, and ignores
      whatever follows it when that does not start with a digit or an `x`
      (so `parseInt("2 pizzas")` and `parseInt("2.5")` are 2). */
  lemma ParseIntReadsDecimal(n: int, tail: string)
    requires |tail| == 0 || (!IsDigit(tail[0], 10) && tail[0] != 'x' && tail[0] != 'X')
    ensures ParseInt(DecimalText(n) + tail) == Some(n)
  {
    var m: nat := if n < 0 then -n else n;
    var s := DecimalText(n) + tail;
    var u := NatText(m) + tail;
    assert !IsStrWhiteSpace(s[0]);
    assert TrimStart(s) == s;
    ParseUnsignedReadsDecimal(m, tail);
    if n < 0 {
      assert s == "-" + u && s[1..] == u;
    } else {
      assert s == u;
    }
  }

  /** The digit-free text `parseInt` turns into `NaN`. */
  lemma ParseIntWithoutDigits(s: string)
    requires forall i :: 0 <= i < |s| ==> !IsDigit(s[i], 10)
    ensures ParseInt(s) == None
  {
    var t := TrimStart(s);
    assert forall i :: 0 <= i < |t| ==> t[i] == s[|s| - |t| + i];
  }
}
