/** Decimal digits: number formatting, ECMAScript parseInt (radix 10) and the
    string-to-number coercion behind isNaN. */
module Numbers {
  import Text

  predicate IsDigit(c: char) {
    '0' <= c <= '9'
  }

  predicate AllDigits(s: string) {
    forall i :: 0 <= i < |s| ==> IsDigit(s[i])
  }

  function DigitValue(c: char): nat
    requires IsDigit(c)
  {
    c as int - '0' as int
  }

  function DigitChar(d: nat): (c: char)
    requires d < 10
    ensures IsDigit(c) && DigitValue(c) == d
  {
    ('0' as int + d) as char
  }

  /** The value of a string of decimal digits. */
  function Value(ds: string): nat
    requires AllDigits(ds)
  {
    if ds == [] then 0 else Value(ds[..|ds| - 1]) * 10 + DigitValue(ds[|ds| - 1])
  }

  /** Digits with no superfluous leading zero. */
  predicate Canonical(ds: string) {
    |ds| >= 1 && AllDigits(ds) && (|ds| > 1 ==> ds[0] != '0')
  }

  /** The decimal representation of a natural number. */
  function NatToString(n: nat): (s: string)
    ensures Canonical(s) && Value(s) == n
  {
    if n < 10 then [DigitChar(n)]
    else
      var s := NatToString(n / 10) + [DigitChar(n % 10)];
      assert s[..|s| - 1] == NatToString(n / 10);
      s
  }

  lemma {:induction false} ValueBound(ds: string)
    requires Canonical(ds) && |ds| > 1
    ensures Value(ds) >= 10
    decreases |ds|
  {
    var p := ds[..|ds| - 1];
    if |p| > 1 {
      assert p[0] == ds[0];
      ValueBound(p);
    } else {
      assert p[0] == ds[0];
      assert Value(p) == DigitValue(p[0]);
    }
  }

  /** Canonical digit strings and natural numbers are in one-to-one
      correspondence. */
  lemma {:induction false} NatToStringOfValue(ds: string)
    requires Canonical(ds)
    ensures NatToString(Value(ds)) == ds
    decreases |ds|
  {
    if |ds| > 1 {
      var p := ds[..|ds| - 1];
      var last := ds[|ds| - 1];
      assert Value(ds) == Value(p) * 10 + DigitValue(last);
      assert p[0] == ds[0];
      ValueBound(ds);
      if |p| > 1 {
        NatToStringOfValue(p);
      } else {
        assert Value(p) == DigitValue(p[0]);
        assert NatToString(Value(p)) == p;
      }
      LastDigit(Value(p), DigitValue(last));
      assert NatToString(Value(ds)) == p + [DigitChar(DigitValue(last))];
      assert DigitChar(DigitValue(last)) == last;
      assert p + [last] == ds;
    }
  }

  lemma LastDigit(a: nat, d: nat)
    requires d < 10
    ensures (a * 10 + d) / 10 == a && (a * 10 + d) % 10 == d
  {
  }

  /** The decimal representation of an integer, as Number.prototype.toString
      writes it. */
  function IntToString(i: int): string {
    if i < 0 then "-" + NatToString(-i) else NatToString(i)
  }

  /** Length of the longest all-digit prefix. */
  function DigitRun(s: string): (n: nat)
    ensures n <= |s| && AllDigits(s[..n])
    ensures n == |s| || !IsDigit(s[n])
  {
    if s != [] && IsDigit(s[0]) then
      var n := 1 + DigitRun(s[1..]);
      assert s[..n] == [s[0]] + s[1..][..n - 1];
      n
    else 0
  }

  lemma {:induction false} DigitRunOfDigits(ds: string, rest: string)
    requires AllDigits(ds)
    requires rest == [] || !IsDigit(rest[0])
    ensures DigitRun(ds + rest) == |ds|
  {
    if ds != [] {
      assert (ds + rest)[1..] == ds[1..] + rest;
      DigitRunOfDigits(ds[1..], rest);
    }
  }

  /** A number as parseInt produces it: an integer or NaN. */
  datatype IntOrNaN = NaN | Int(value: int)

  /** ECMAScript parseInt(s, 10): skip leading space, take an optional sign and
      the longest run of digits after it; NaN when that run is empty. */
  function ParseInt(s: string): (r: IntOrNaN)
    ensures Text.TrimStart(s) == [] ==> r == NaN
    ensures r.Int? ==> exists k :: 0 <= k < |s| && IsDigit(s[k])
  {
    var t := Text.TrimStart(s);
    var negative := t != [] && t[0] == '-';
    var u := if t != [] && (t[0] == '-' || t[0] == '+') then t[1..] else t;
    var n := DigitRun(u);
    if n == 0 then NaN
    else if negative then Int(-(Value(u[..n]) as int))
    else Int(Value(u[..n]))
  }

  /** parseInt reads back what IntToString writes, whatever non-digit text
      follows it. */
  lemma {:induction false} ParseIntOfIntToString(i: int, rest: string)
    requires rest == [] || !IsDigit(rest[0])
    ensures ParseInt(IntToString(i) + rest) == Int(i)
  {
    if i < 0 {
      ParseNegative(NatToString(-i), rest);
      assert IntToString(i) + rest == "-" + NatToString(-i) + rest;
    } else {
      ParseUnsigned(NatToString(i), rest);
    }
  }

  lemma {:induction false} ParseUnsigned(d: string, rest: string)
    requires d != [] && AllDigits(d)
    requires rest == [] || !IsDigit(rest[0])
    ensures ParseInt(d + rest) == Int(Value(d))
  {
    var s := d + rest;
    assert s[0] == d[0];
    Text.TrimStartOfTrimmed(s);
    DigitRunOfDigits(d, rest);
    assert s[..|d|] == d;
  }

  lemma {:induction false} ParseNegative(d: string, rest: string)
    requires d != [] && AllDigits(d)
    requires rest == [] || !IsDigit(rest[0])
    ensures ParseInt("-" + d + rest) == Int(-(Value(d) as int))
  {
    var s := "-" + d + rest;
    assert s[0] == '-';
    Text.TrimStartOfTrimmed(s);
    assert s[1..] == d + rest;
    DigitRunOfDigits(d, rest);
    assert (d + rest)[..|d|] == d;
  }
  lemma {:induction false} ParsePlus(d: string, rest: string)
    requires d != [] && AllDigits(d)
    requires rest == [] || !IsDigit(rest[0])
    ensures ParseInt("+" + d + rest) == Int(Value(d))
  {
    var s := "+" + d + rest;
    assert s[0] == '+';
    Text.TrimStartOfTrimmed(s);
    assert s[1..] == d + rest;
    DigitRunOfDigits(d, rest);
    assert (d + rest)[..|d|] == d;
  }


  /** parseInt skips leading space, takes one optional sign and reads the
      digits after it, leading zeros included, up to the first non-digit. */
  lemma {:induction false} ParseIntOfText(ws: string, sign: string, ds: string, rest: string)
    requires forall c | c in ws :: Text.IsSpace(c)
    requires sign == "" || sign == "+" || sign == "-"
    requires ds != [] && AllDigits(ds)
    requires rest == [] || !IsDigit(rest[0])
    ensures ParseInt(ws + sign + ds + rest) == Int(if sign == "-" then -(Value(ds) as int) else Value(ds))
  {
    var t := sign + ds + rest;
    assert ws + sign + ds + rest == ws + t;
    assert t[0] == if sign == "" then ds[0] else sign[0];
    Text.TrimStartOfPadded(ws, t);
    Text.TrimStartOfTrimmed(t);
    ParseIntAfterSpace(ws + t, t);
    ParseSigned(sign, ds, rest);
  }

  /** parseInt sees only the text after the leading space. */
  lemma {:induction false} ParseIntAfterSpace(s: string, t: string)
    requires Text.TrimStart(s) == Text.TrimStart(t)
    ensures ParseInt(s) == ParseInt(t)
  {
  }

  /** A sign and digits with no space before them read as the signed value
      of the digits. */
  lemma {:induction false} ParseSigned(sign: string, ds: string, rest: string)
    requires sign == "" || sign == "+" || sign == "-"
    requires ds != [] && AllDigits(ds)
    requires rest == [] || !IsDigit(rest[0])
    ensures ParseInt(sign + ds + rest) == Int(if sign == "-" then -(Value(ds) as int) else Value(ds))
  {
    if sign == "" {
      assert sign + ds + rest == ds + rest;
      ParseUnsigned(ds, rest);
    } else if sign == "+" {
      ParsePlus(ds, rest);
    } else {
      ParseNegative(ds, rest);
    }
  }

  /** parseInt gives NaN exactly when no digit follows the space and sign. */
  lemma {:induction false} ParseIntNaN(s: string)
    ensures var t := Text.TrimStart(s);
            var u := if t != [] && (t[0] == '-' || t[0] == '+') then t[1..] else t;
            ParseInt(s) == NaN <==> (u == [] || !IsDigit(u[0]))
  {
  }

  predicate IsHexDigit(c: char) {
    IsDigit(c) || 'a' <= c <= 'f' || 'A' <= c <= 'F'
  }

  predicate AllHexDigits(s: string) {
    forall i :: 0 <= i < |s| ==> IsHexDigit(s[i])
  }

  function HexDigitValue(c: char): (d: nat)
    requires IsHexDigit(c)
    ensures d < 16
  {
    if IsDigit(c) then DigitValue(c)
    else if 'a' <= c <= 'f' then c as int - 'a' as int + 10
    else c as int - 'A' as int + 10
  }

  /** The value of a string of hexadecimal digits. */
  function HexValue(ds: string): nat
    requires AllHexDigits(ds)
  {
    if ds == [] then 0 else HexValue(ds[..|ds| - 1]) * 16 + HexDigitValue(ds[|ds| - 1])
  }

  /** Length of the longest all-hex-digit prefix. */
  function HexRun(s: string): (n: nat)
    ensures n <= |s| && AllHexDigits(s[..n])
    ensures n == |s| || !IsHexDigit(s[n])
  {
    if s != [] && IsHexDigit(s[0]) then
      var n := 1 + HexRun(s[1..]);
      assert s[..n] == [s[0]] + s[1..][..n - 1];
      n
    else 0
  }

  /** The text after parseInt's optional sign. */
  function Unsigned(t: string): string {
    if t != [] && (t[0] == '-' || t[0] == '+') then t[1..] else t
  }

  predicate HasHexPrefix(u: string) {
    |u| >= 2 && u[0] == '0' && (u[1] == 'x' || u[1] == 'X')
  }

  /** ECMAScript parseInt(s) with no radix: as ParseInt, except that a 0x or
      0X after the sign switches to hexadecimal digits. */
  function ParseIntAuto(s: string): (r: IntOrNaN)
    ensures !HasHexPrefix(Unsigned(Text.TrimStart(s))) ==> r == ParseInt(s)
  {
    var t := Text.TrimStart(s);
    var negative := t != [] && t[0] == '-';
    var u := Unsigned(t);
    if HasHexPrefix(u) then
      var h := u[2..];
      var n := HexRun(h);
      if n == 0 then NaN
      else if negative then Int(-(HexValue(h[..n]) as int))
      else Int(HexValue(h[..n]))
    else ParseInt(s)
  }

  /** Digits alone, with no space or sign before them, read as their value,
      with a radix of 10 or none. */
  lemma {:induction false} ParseDigits(s: string)
    requires s != [] && AllDigits(s) && !HasHexPrefix(s)
    ensures ParseInt(s) == Int(Value(s))
    ensures ParseIntAuto(s) == Int(Value(s))
  {
    Text.TrimStartOfTrimmed(s);
    assert Unsigned(s) == s;
    DigitRunOfDigits(s, []);
    assert s + [] == s;
    assert s[..|s|] == s;
  }

  /** The texts "1" and "10" read as 1 and 10. */
  lemma {:induction false} OneAndTen()
    ensures ParseInt("1") == Int(1) && ParseInt("10") == Int(10)
    ensures ParseIntAuto("1") == Int(1) && ParseIntAuto("10") == Int(10)
  {
    ParseDigits("1");
    ParseDigits("10");
    assert Value("1") == 1 by {
      assert "1"[..0] == [];
    }
    assert Value("10") == 10 by {
      assert "10"[..1] == "1";
      assert "1"[..0] == [];
    }
  }

  lemma {:induction false} HexRunOfHexDigits(h: string)
    requires AllHexDigits(h)
    ensures HexRun(h) == |h|
  {
    if h != [] {
      HexRunOfHexDigits(h[1..]);
    }
  }

  /** Hexadecimal digits after 0x are read in base 16 without a radix, and
      as 0 in base 10. */
  lemma {:induction false} HexPrefixRead(h: string)
    requires h != [] && AllHexDigits(h)
    ensures ParseIntAuto("0x" + h) == Int(HexValue(h))
    ensures ParseInt("0x" + h) == Int(0)
  {
    HexPrefixAuto(h);
    HexPrefixDecimal(h);
  }

  lemma {:induction false} HexPrefixAuto(h: string)
    requires h != [] && AllHexDigits(h)
    ensures ParseIntAuto("0x" + h) == Int(HexValue(h))
  {
    var s := "0x" + h;
    assert s[0] == '0' && s[1] == 'x';
    Text.TrimStartOfTrimmed(s);
    assert Unsigned(s) == s;
    assert s[2..] == h;
    HexRunOfHexDigits(h);
    assert h[..|h|] == h;
  }

  lemma {:induction false} HexPrefixDecimal(h: string)
    requires h != [] && AllHexDigits(h)
    ensures ParseInt("0x" + h) == Int(0)
  {
    var s := "0x" + h;
    assert s[0] == '0' && s[1] == 'x';
    Text.TrimStartOfTrimmed(s);
    assert DigitRun(s[1..]) == 0;
    assert DigitRun(s) == 1;
    assert s[..1] == "0";
    assert Value("0") == 0 by {
      assert "0"[..0] == [];
    }
  }

  predicate AllIn(s: string, alphabet: string) {
    forall i :: 0 <= i < |s| ==> s[i] in alphabet
  }

  /** ExponentPart of a StrUnsignedDecimalLiteral: e or E, an optional sign,
      at least one digit. */
  predicate IsExponentPart(s: string) {
    |s| >= 2 && (s[0] == 'e' || s[0] == 'E')
    && var d := if s[1] == '+' || s[1] == '-' then s[2..] else s[1..];
       d != [] && AllDigits(d)
  }

  /** StrUnsignedDecimalLiteral: Infinity, or digits with an optional fraction,
      or a fraction alone, each with an optional exponent. */
  predicate IsUnsignedDecimal(u: string) {
    || u == "Infinity"
    || (var m := DigitRun(u);
        var rest := u[m..];
        if rest != [] && rest[0] == '.' then
          var f := DigitRun(rest[1..]);
          m + f >= 1 && (rest[1 + f..] == [] || IsExponentPart(rest[1 + f..]))
        else
          m >= 1 && (rest == [] || IsExponentPart(rest)))
  }

  /** StrNumericLiteral of ECMAScript: a signed decimal literal, or a binary,
      octal or hexadecimal integer literal without sign. */
  predicate IsNumericLiteral(s: string) {
    || (|s| >= 3 && s[0] == '0' && (s[1] == 'b' || s[1] == 'B') && AllIn(s[2..], "01"))
    || (|s| >= 3 && s[0] == '0' && (s[1] == 'o' || s[1] == 'O') && AllIn(s[2..], "01234567"))
    || (|s| >= 3 && s[0] == '0' && (s[1] == 'x' || s[1] == 'X') && AllIn(s[2..], "0123456789abcdefABCDEF"))
    || IsUnsignedDecimal(if s != [] && (s[0] == '+' || s[0] == '-') then s[1..] else s)
  }

  /** isNaN(s) for a string s: Number(s) is NaN. An all-space string is 0. */
  predicate IsNaNString(s: string)
    ensures Text.Trim(s) == [] ==> !IsNaNString(s)
  {
    var t := Text.Trim(s);
    t != [] && !IsNumericLiteral(t)
  }

  /** A decimal integer is a number. */
  lemma {:induction false} DecimalIsNumber(i: int)
    ensures !IsNaNString(IntToString(i))
  {
    var d := NatToString(if i < 0 then -i else i);
    var s := IntToString(i);
    DigitsAreDecimal(d);
    assert s[|s| - 1] == d[|d| - 1];
    if i < 0 {
      assert s[0] == '-' && s[1..] == d;
    } else {
      assert s == d;
    }
    Text.TrimOfUnpadded(s);
  }

  lemma {:induction false} DigitsAreDecimal(d: string)
    requires Canonical(d)
    ensures IsUnsignedDecimal(d)
  {
    DigitRunOfDigits(d, []);
    assert d + [] == d;
    assert d[|d|..] == [];
  }

  /** A string that starts with a character no numeric literal can start
      with is NaN. */
  lemma {:induction false} BadLeadMakesNaN(s: string)
    requires s != [] && !Text.IsSpace(s[0]) && !Text.IsSpace(s[|s| - 1])
    requires s[0] !in "+-.0123456789I"
    ensures IsNaNString(s)
  {
    Text.TrimStartOfTrimmed(s);
    assert DigitRun(s) == 0;
  }
}
