/** JavaScript's global `parseInt(string)` called without a radix, as the
    form controller uses it for the amount and the VAT percentage
    (section 19.2.5 of the ECMAScript Language Specification). `None` is `NaN`.
    Both signed zeros are the integer 0. */
module JsParseInt {
  import opened JsValues

  /** The characters `parseInt` skips at the front: WhiteSpace and LineTerminator. */
  predicate IsStrWhiteSpace(c: char) {
    || c == '\t' || c == '\n' || c == '\U{000B}' || c == '\U{000C}' || c == '\r'
    || c == ' ' || c == '\U{00A0}' || c == '\U{1680}' || ('\U{2000}' <= c <= '\U{200A}')
    || c == '\U{2028}' || c == '\U{2029}' || c == '\U{202F}' || c == '\U{205F}'
    || c == '\U{3000}' || c == '\U{FEFF}'
  }

  /** `s` without its leading white space. */
  function TrimStart(s: string): string
    decreases |s|
  {
    if |s| > 0 && IsStrWhiteSpace(s[0]) then TrimStart(s[1..]) else s
  }

  /** What `TrimStart` drops is white space at the front, and what it keeps
      is the rest of `s`, starting with something other than white space. */
  lemma {:induction false} TrimStartDropsWhiteSpace(s: string)
    ensures var r := TrimStart(s);
      && |r| <= |s| && r == s[|s| - |r|..]
      && (forall i :: 0 <= i < |s| - |r| ==> IsStrWhiteSpace(s[i]))
      && (r == [] || !IsStrWhiteSpace(r[0]))
    decreases |s|
  {
    if |s| > 0 && IsStrWhiteSpace(s[0]) {
      TrimStartDropsWhiteSpace(s[1..]);
      var r := TrimStart(s);
      assert s[1..][|s| - 1 - |r|..] == s[|s| - |r|..];
    }
  }

  /** The value of `c` as a digit of radix up to 36; 36 when it is no digit at all. */
  function DigitValue(c: char): (d: nat)
    ensures d <= 36
    ensures d < 10 <==> '0' <= c <= '9'
  {
    if '0' <= c <= '9' then c as int - '0' as int
    else if 'a' <= c <= 'z' then c as int - 'a' as int + 10
    else if 'A' <= c <= 'Z' then c as int - 'A' as int + 10
    else 36
  }

  predicate IsDigitIn(c: char, radix: nat) {
    DigitValue(c) < radix
  }

  /** Length of the longest prefix of `s` made of radix-`radix` digits. */
  function DigitRunLength(s: string, radix: nat): (n: nat)
    ensures n <= |s|
    decreases |s|
  {
    if |s| > 0 && IsDigitIn(s[0], radix) then 1 + DigitRunLength(s[1..], radix) else 0
  }

  /** The run is all digits, and is as long as it can be. */
  lemma {:induction false} DigitRunIsLongest(s: string, radix: nat)
    ensures var n := DigitRunLength(s, radix);
      && (forall i :: 0 <= i < n ==> IsDigitIn(s[i], radix))
      && (n < |s| ==> !IsDigitIn(s[n], radix))
    decreases |s|
  {
    if |s| > 0 && IsDigitIn(s[0], radix) {
      DigitRunIsLongest(s[1..], radix);
    }
  }

  /** The number the digits denote in the given radix, most significant first. */
  function ValueOf(digits: string, radix: nat): nat
    decreases |digits|
  {
    if |digits| == 0 then 0
    else ValueOf(digits[..|digits| - 1], radix) * radix + DigitValue(digits[|digits| - 1])
  }

  /** The longest run of radix-`radix` digits at the front of `body`, as a
      number; `NaN` when `body` does not start with a digit. */
  function ReadDigits(body: string, radix: nat): Option<nat> {
    var n := DigitRunLength(body, radix);
    if n == 0 then None else Some(ValueOf(body[..n], radix))
  }

  /** Whether an unsigned numeral starts with the `0x` or `0X` prefix. */
  predicate HasHexPrefix(unsigned: string) {
    |unsigned| >= 2 && unsigned[0] == '0' && (unsigned[1] == 'x' || unsigned[1] == 'X')
  }

  /** The magnitude after the sign: radix 16 after a hex prefix, radix 10 otherwise. */
  function ReadMagnitude(unsigned: string): Option<nat> {
    if HasHexPrefix(unsigned) then ReadDigits(unsigned[2..], 16) else ReadDigits(unsigned, 10)
  }

  /** An optional `+` or `-`, then the magnitude. */
  function ReadSigned(t: string): Option<int> {
    if |t| > 0 && (t[0] == '-' || t[0] == '+') then
      match ReadMagnitude(t[1..])
      case None => None
      case Some(m) =>
        var v: int := m;
        Some(if t[0] == '-' then -v else v)
    else
      match ReadMagnitude(t)
      case None => None
      case Some(m) => Some(m)
  }

  /** `parseInt(s)`: skip white space, read an optional sign, switch to radix 16
      after a `0x` or `0X` prefix, then read the longest run of digits.
      No digit at all gives `NaN`. */
  function ParseInt(s: string): Option<int> {
    ReadSigned(TrimStart(s))
  }

  /** The decimal digits of `m`, without leading zeros. */
  function NatToDecimal(m: nat): (s: string)
    ensures |s| >= 1
    ensures forall i :: 0 <= i < |s| ==> IsDigitIn(s[i], 10)
    decreases m
  {
    (if m < 10 then "" else NatToDecimal(m / 10)) + [('0' as int + m % 10) as char]
  }

  /** `String(n)` for an integer `n`: an optional minus sign, then its decimal digits. */
  function IntToDecimal(n: int): string {
    (if n < 0 then "-" else "") + NatToDecimal(if n < 0 then -n else n)
  }

  /** The decimal digits of `m` denote `m`. */
  lemma {:induction false} ValueOfDecimal(m: nat)
    ensures ValueOf(NatToDecimal(m), 10) == m
    decreases m
  {
    var s := NatToDecimal(m);
    var front := if m < 10 then "" else NatToDecimal(m / 10);
    var last := ('0' as int + m % 10) as char;
    assert s == front + [last] && s[..|s| - 1] == front;
    assert DigitValue(last) == m % 10;
    if m >= 10 {
      ValueOfDecimal(m / 10);
    }
  }

  /** A run of digits followed by a non-digit is read up to that non-digit. */
  lemma {:induction false} DigitRunOfDigits(digits: string, rest: string, radix: nat)
    requires forall i :: 0 <= i < |digits| ==> IsDigitIn(digits[i], radix)
    requires rest == [] || !IsDigitIn(rest[0], radix)
    ensures DigitRunLength(digits + rest, radix) == |digits|
    decreases |digits|
  {
    var s := digits + rest;
    if |digits| == 0 {
      assert s == rest;
    } else {
      assert s[0] == digits[0];
      assert s[1..] == digits[1..] + rest;
      DigitRunOfDigits(digits[1..], rest, radix);
    }
  }

  /** The decimal form of a positive number does not start with `0`. */
  lemma {:induction false} NatToDecimalLeadingDigit(m: nat)
    requires m > 0
    ensures NatToDecimal(m)[0] != '0'
    decreases m
  {
    if m >= 10 {
      NatToDecimalLeadingDigit(m / 10);
      assert NatToDecimal(m)[0] == NatToDecimal(m / 10)[0];
    }
  }

  /** A run of digits followed by a non-digit is read as the number it denotes. */
  lemma ReadDigitsOfRun(digits: string, rest: string, radix: nat)
    requires |digits| > 0 && forall i :: 0 <= i < |digits| ==> IsDigitIn(digits[i], radix)
    requires rest == [] || !IsDigitIn(rest[0], radix)
    ensures ReadDigits(digits + rest, radix) == Some(ValueOf(digits, radix))
  {
    DigitRunOfDigits(digits, rest, radix);
    assert (digits + rest)[..|digits|] == digits;
  }

  /** A decimal numeral never starts with a hex prefix, unless a lone `0` is
      followed by `x` or `X`. */
  lemma DecimalWithoutHexPrefix(m: nat, rest: string)
    requires rest == [] || (!IsDigitIn(rest[0], 10) && (m == 0 ==> rest[0] != 'x' && rest[0] != 'X'))
    ensures !HasHexPrefix(NatToDecimal(m) + rest)
  {
    var digits := NatToDecimal(m);
    var unsigned := digits + rest;
    if |digits| >= 2 {
      assert unsigned[1] == digits[1];
    } else if m > 0 {
      NatToDecimalLeadingDigit(m);
      assert unsigned[0] == digits[0];
    } else if |unsigned| >= 2 {
      assert unsigned[1] == rest[0];
    }
  }

  /** The decimal digits of a number followed by a non-digit read as that number;
      only after a lone `0` could an `x` or `X` turn them into a hex prefix. */
  lemma ReadMagnitudeOfDecimal(m: nat, rest: string)
    requires rest == [] || (!IsDigitIn(rest[0], 10) && (m == 0 ==> rest[0] != 'x' && rest[0] != 'X'))
    ensures ReadMagnitude(NatToDecimal(m) + rest) == Some(m)
  {
    DecimalWithoutHexPrefix(m, rest);
    ReadDigitsOfRun(NatToDecimal(m), rest, 10);
    ValueOfDecimal(m);
  }

  /** A numeral with a minus sign reads as the negated magnitude. */
  lemma ReadSignedNegative(unsigned: string, m: nat)
    requires ReadMagnitude(unsigned) == Some(m)
    ensures ReadSigned(['-'] + unsigned) == Some(-(m as int))
  {
    assert (['-'] + unsigned)[1..] == unsigned;
  }

  /** A numeral starting with a digit reads as its magnitude. */
  lemma ReadSignedUnsigned(unsigned: string, m: nat)
    requires |unsigned| > 0 && IsDigitIn(unsigned[0], 10)
    requires ReadMagnitude(unsigned) == Some(m)
    ensures ReadSigned(unsigned) == Some(m)
  {
  }

  /** A string that does not start with white space is read as it is. */
  lemma ParseIntWithoutLeadingWhiteSpace(s: string)
    requires |s| > 0 && !IsStrWhiteSpace(s[0])
    ensures ParseInt(s) == ReadSigned(s)
  {
  }

  /** The decimal form of `n` followed by `rest` is the sign, then the digits
      of the magnitude followed by `rest`. */
  lemma IntToDecimalThen(n: int, rest: string)
    ensures n < 0 ==> IntToDecimal(n) + rest == ['-'] + (NatToDecimal(-n) + rest)
    ensures n >= 0 ==> IntToDecimal(n) + rest == NatToDecimal(n) + rest
  {
    var digits := NatToDecimal(if n < 0 then -n else n);
    if n < 0 {
      assert IntToDecimal(n) + rest == ['-'] + digits + rest;
    } else {
      assert IntToDecimal(n) == digits;
    }
  }

  /** `parseInt` reads back the decimal form of every integer, and stops at
      whatever follows it, unless what follows is a digit or would turn a
      lone `0` into a `0x` prefix: `parseInt("12.5")` is 12, `parseInt("5x")` is 5. */
  lemma ParseIntReadsDecimal(n: int, rest: string)
    requires rest == [] || (!IsDigitIn(rest[0], 10) && (n == 0 ==> rest[0] != 'x' && rest[0] != 'X'))
    ensures ParseInt(IntToDecimal(n) + rest) == Some(n)
  {
    var m := if n < 0 then -n else n;
    var unsigned := NatToDecimal(m) + rest;
    ReadMagnitudeOfDecimal(m, rest);
    IntToDecimalThen(n, rest);
    if n < 0 {
      ReadSignedNegative(unsigned, m);
      ParseIntWithoutLeadingWhiteSpace(['-'] + unsigned);
    } else {
      assert unsigned[0] == NatToDecimal(m)[0];
      ReadSignedUnsigned(unsigned, m);
      ParseIntWithoutLeadingWhiteSpace(unsigned);
    }
  }

  /** `0x` or `0X` in front of `body` is a hex prefix, and `body` is what follows it. */
  lemma HexPrefixThen(x: char, body: string)
    requires x == 'x' || x == 'X'
    ensures HasHexPrefix(['0', x] + body)
    ensures ReadMagnitude(['0', x] + body) == ReadDigits(body, 16)
  {
    assert (['0', x] + body)[2..] == body;
  }

  /** After a `0x` prefix the digits are read in radix 16, up to the first
      character that is not a hex digit. */
  lemma ReadMagnitudeOfHex(x: char, hex: string, rest: string)
    requires x == 'x' || x == 'X'
    requires |hex| > 0 && forall i :: 0 <= i < |hex| ==> IsDigitIn(hex[i], 16)
    requires rest == [] || !IsDigitIn(rest[0], 16)
    ensures ReadMagnitude(['0', x] + (hex + rest)) == Some(ValueOf(hex, 16))
  {
    HexPrefixThen(x, hex + rest);
    ReadDigitsOfRun(hex, rest, 16);
  }

  /** `parseInt` reads a `0x`-prefixed numeral in radix 16: `parseInt("0x14")` is 20. */
  lemma ParseIntReadsHex(x: char, hex: string, rest: string)
    requires x == 'x' || x == 'X'
    requires |hex| > 0 && forall i :: 0 <= i < |hex| ==> IsDigitIn(hex[i], 16)
    requires rest == [] || !IsDigitIn(rest[0], 16)
    ensures ParseInt(['0', x] + (hex + rest)) == Some(ValueOf(hex, 16))
  {
    var s := ['0', x] + (hex + rest);
    ReadMagnitudeOfHex(x, hex, rest);
    assert s[0] == '0';
    ParseIntWithoutLeadingWhiteSpace(s);
  }

  /** Leading white space never changes what `parseInt` reads. */
  lemma ParseIntSkipsLeadingWhiteSpace(ws: string, s: string)
    requires forall i :: 0 <= i < |ws| ==> IsStrWhiteSpace(ws[i])
    ensures ParseInt(ws + s) == ParseInt(s)
  {
    TrimStartSkips(ws, s);
  }

  /** Trimming a string behind leading white space trims that white space too. */
  lemma {:induction false} TrimStartSkips(ws: string, s: string)
    requires forall i :: 0 <= i < |ws| ==> IsStrWhiteSpace(ws[i])
    ensures TrimStart(ws + s) == TrimStart(s)
    decreases |ws|
  {
    if |ws| > 0 {
      var whole := ws + s;
      assert whole[0] == ws[0] && IsStrWhiteSpace(whole[0]);
      assert TrimStart(whole) == TrimStart(whole[1..]);
      assert whole[1..] == ws[1..] + s;
      TrimStartSkips(ws[1..], s);
    } else {
      assert ws + s == s;
    }
  }

  /** A string without any decimal digit, the empty string among them, is `NaN`. */
  lemma ParseIntWithoutDigits(s: string)
    requires forall i :: 0 <= i < |s| ==> !IsDigitIn(s[i], 10)
    ensures ParseInt(s) == None
  {
    var t := TrimStart(s);
    TrimStartDropsWhiteSpace(s);
    assert forall i :: 0 <= i < |t| ==> t[i] == s[|s| - |t| + i];
    var unsigned := if |t| > 0 && (t[0] == '-' || t[0] == '+') then t[1..] else t;
    assert forall i :: 0 <= i < |unsigned| ==> !IsDigitIn(unsigned[i], 10);
    assert !HasHexPrefix(unsigned);
    assert DigitRunLength(unsigned, 10) == 0;
  }
}
