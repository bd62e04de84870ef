/** Number-to-text and text-to-number conversions as JavaScript performs them:
    template interpolation of a non-negative integer and the global `parseInt`. */
module Numbers {
  import opened JsValues

  function DigitChar(d: nat): (c: char)
    requires d < 10
    ensures '0' <= c <= '9' && c as int - '0' as int == d
  {
    ('0' as int + d) as char
  }

  /** `${n}` for a non-negative integer: its decimal digits, without leading zeros. */
  function NatToDecimal(n: nat): (r: string)
    ensures |r| >= 1 && forall i :: 0 <= i < |r| ==> '0' <= r[i] <= '9'
    ensures r[0] == '0' ==> n == 0
    decreases n
  {
    if n < 10 then [DigitChar(n)] else NatToDecimal(n / 10) + [DigitChar(n % 10)]
  }

  /** The characters `parseInt` skips before the number: ECMAScript's WhiteSpace and LineTerminator. */
  predicate IsJsSpace(c: char) {
    c == '\t' || c == '\n' || c == '\U{000B}' || c == '\U{000C}' || c == '\r' || c == ' '
    || c == '\U{00A0}' || c == '\U{1680}' || ('\U{2000}' <= c <= '\U{200A}')
    || c == '\U{2028}' || c == '\U{2029}' || c == '\U{202F}' || c == '\U{205F}'
    || c == '\U{3000}' || c == '\U{FEFF}'
  }

  function TrimStart(s: string): (r: string)
    ensures r == [] || !IsJsSpace(r[0])
    ensures |r| <= |s| && r == s[|s| - |r|..]
  {
    if s != [] && IsJsSpace(s[0]) then TrimStart(s[1..]) else s
  }

  /** The value of an ASCII letter or digit as a digit of radix up to 36; 36 for anything else. */
  function DigitValue(c: char): (v: nat)
    ensures v <= 36
    ensures v < 10 <==> '0' <= c <= '9'
  {
    if '0' <= c <= '9' then c as int - '0' as int
    else if 'a' <= c <= 'z' then c as int - 'a' as int + 10
    else if 'A' <= c <= 'Z' then c as int - 'A' as int + 10
    else 36
  }

  /** The longest prefix of `s` made of digits of the given radix. */
  function DigitPrefix(s: string, radix: nat): (r: string)
    ensures |r| <= |s| && r == s[..|r|]
    ensures forall i :: 0 <= i < |r| ==> DigitValue(r[i]) < radix
    ensures |r| < |s| ==> DigitValue(s[|r|]) >= radix
  {
    if s != [] && DigitValue(s[0]) < radix then [s[0]] + DigitPrefix(s[1..], radix) else []
  }

  /** The value of a digit string in the given radix, most significant digit first. */
  function DigitsValue(z: string, radix: nat): nat {
    if z == [] then 0 else DigitsValue(z[..|z| - 1], radix) * radix + DigitValue(z[|z| - 1])
  }

  /** The global `parseInt(s)` without a radix argument; `None` stands for `NaN`. It skips leading
      white space, takes one optional sign and converts what follows with `Magnitude`. */
  function ParseInt(s: string): Option<int> {
    var t := TrimStart(s);
    var negative := t != [] && t[0] == '-';
    var u := if t != [] && (t[0] == '-' || t[0] == '+') then t[1..] else t;
    var m := Magnitude(u);
    if m.None? then None else var v: int := m.value; Some(if negative then -v else v)
  }

  /** The unsigned part of `parseInt`: a `0x`/`0X` prefix selects radix 16, and the longest run
      of digits that follows is converted, ignoring whatever comes after it. */
  function Magnitude(u: string): Option<nat> {
    var hex := |u| >= 2 && u[0] == '0' && (u[1] == 'x' || u[1] == 'X');
    var radix := if hex then 16 else 10;
    var z := DigitPrefix(if hex then u[2..] else u, radix);
    if z == [] then None else Some(DigitsValue(z, radix))
  }

  lemma {:induction false} DecimalValue(n: nat)
    ensures DigitsValue(NatToDecimal(n), 10) == n
    decreases n
  {
    var r := NatToDecimal(n);
    if n >= 10 {
      assert r[..|r| - 1] == NatToDecimal(n / 10);
      DecimalValue(n / 10);
    }
  }

  lemma {:induction false} DigitPrefixOfDigits(d: string, rest: string)
    requires forall i :: 0 <= i < |d| ==> DigitValue(d[i]) < 10
    requires rest == [] || DigitValue(rest[0]) >= 10
    ensures DigitPrefix(d + rest, 10) == d
  {
    if d == [] {
      assert d + rest == rest;
    } else {
      assert (d + rest)[1..] == d[1..] + rest;
      DigitPrefixOfDigits(d[1..], rest);
    }
  }

  /** A text that starts with a digit has no leading white space to skip. */
  lemma TrimStartOfDigit(s: string)
    requires s != [] && '0' <= s[0] <= '9'
    ensures TrimStart(s) == s
  {
    assert !IsJsSpace(s[0]);
  }

  /** A text that starts with a digit and not with `0x`/`0X` has the value of its leading
      decimal digits. */
  lemma MagnitudeOfDecimal(s: string)
    requires s != [] && '0' <= s[0] <= '9'
    requires !(|s| >= 2 && s[0] == '0' && (s[1] == 'x' || s[1] == 'X'))
    ensures Magnitude(s) == Some(DigitsValue(DigitPrefix(s, 10), 10))
  {
    assert DigitValue(s[0]) < 10;
  }

  /** Such a text is read by `parseInt` as the value of its leading decimal digits. */
  lemma ParseIntPlainDecimal(s: string)
    requires s != [] && '0' <= s[0] <= '9'
    requires !(|s| >= 2 && s[0] == '0' && (s[1] == 'x' || s[1] == 'X'))
    ensures ParseInt(s) == Some(DigitsValue(DigitPrefix(s, 10), 10))
  {
    TrimStartOfDigit(s);
    MagnitudeOfDecimal(s);
  }

  /** `parseInt` reads back the decimal text of any non-negative integer, and ignores what
      follows it as long as that does not continue the digits (or, after a lone `0`, turn
      it into a hexadecimal prefix). */
  lemma ParseIntReadsDecimal(n: nat, rest: string)
    requires rest == [] || (DigitValue(rest[0]) >= 10 && (n != 0 || (rest[0] != 'x' && rest[0] != 'X')))
    ensures ParseInt(NatToDecimal(n) + rest) == Some(n)
  {
    var d := NatToDecimal(n);
    var s := d + rest;
    assert s[0] == d[0];
    if |s| >= 2 && s[0] == '0' {
      assert n == 0 && |d| == 1;
      assert s[1] == rest[0];
    }
    ParseIntPlainDecimal(s);
    DigitPrefixOfDigits(d, rest);
    DecimalValue(n);
  }
}
