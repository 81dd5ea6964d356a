/** UTF-8, as Buffer.from(string) writes it and Buffer.toString("utf-8")
    reads it back. A Dafny `char` is a Unicode scalar value, so every
    string has an encoding. */
module Utf8 {
  import opened Wrappers
  import opened Bytes

  /** The bytes of one character: one byte below U+0080, then two, three or
      four bytes, each continuation byte carrying six bits. */
  function EncodeChar(c: char): (bs: seq<byte>)
    ensures 1 <= |bs| <= 4
  {
    var cp := c as int;
    var r1, r2, r3 := cp / 64, cp / 64 / 64, cp / 64 / 64 / 64;
    if cp < 0x80 then [cp]
    else if cp < 0x800 then [0xC0 + r1, 0x80 + cp % 64]
    else if cp < 0x1_0000 then [0xE0 + r2, 0x80 + r1 % 64, 0x80 + cp % 64]
    else [0xF0 + r3, 0x80 + r2 % 64, 0x80 + r1 % 64, 0x80 + cp % 64]
  }

  function Encode(s: string): (bs: seq<byte>)
    ensures |s| <= |bs| <= 4 * |s|
  {
    if s == [] then [] else EncodeChar(s[0]) + Encode(s[1..])
  }

  predicate IsContinuation(b: byte) {
    0x80 <= b < 0xC0
  }

  /** A scalar value from its bits, refused when it is a surrogate or lies
      outside the range the sequence length allows (an overlong form). */
  function ToChar(cp: int, lo: int, hi: int): (r: Option<char>)
    ensures r.Some? ==> lo <= r.value as int < hi
  {
    if 0 <= lo <= cp < hi && (cp < 0xD800 || 0xE000 <= cp) && cp < 0x11_0000 then Some(cp as char)
    else None
  }

  /** The six bits a continuation byte carries. */
  function Bits(b: byte): int {
    b as int - 0x80
  }

  /** The first character of `bs` and the number of bytes it takes, or None
      when `bs` does not start with a well-formed sequence. */
  function DecodeChar(bs: seq<byte>): (r: Option<(char, nat)>)
    ensures r.Some? ==> 1 <= r.value.1 <= |bs|
  {
    if bs == [] then None
    else
      var b0 := bs[0] as int;
      if b0 < 0x80 then Some((b0 as char, 1))
      else if 0xC0 <= b0 < 0xE0 then
        if |bs| < 2 || !IsContinuation(bs[1]) then None
        else
          match ToChar((b0 - 0xC0) * 64 + Bits(bs[1]), 0x80, 0x800)
          case None => None
          case Some(c) => Some((c, 2))
      else if 0xE0 <= b0 < 0xF0 then
        if |bs| < 3 || !IsContinuation(bs[1]) || !IsContinuation(bs[2]) then None
        else
          match ToChar(((b0 - 0xE0) * 64 + Bits(bs[1])) * 64 + Bits(bs[2]), 0x800, 0x1_0000)
          case None => None
          case Some(c) => Some((c, 3))
      else if 0xF0 <= b0 < 0xF8 then
        if |bs| < 4 || !IsContinuation(bs[1]) || !IsContinuation(bs[2]) || !IsContinuation(bs[3]) then None
        else
          match ToChar((((b0 - 0xF0) * 64 + Bits(bs[1])) * 64 + Bits(bs[2])) * 64 + Bits(bs[3]),
                       0x1_0000, 0x11_0000)
          case None => None
          case Some(c) => Some((c, 4))
      else None
  }

  /** The text of a well-formed UTF-8 byte sequence, or None. */
  function Decode(bs: seq<byte>): (r: Option<string>)
    ensures r.Some? ==> |r.value| <= |bs|
    decreases |bs|
  {
    if bs == [] then Some([])
    else
      match DecodeChar(bs)
      case None => None
      case Some((c, k)) =>
        match Decode(bs[k..])
        case None => None
        case Some(s) => Some([c] + s)
  }

  /** Euclidean division by 64 splits `q * 64 + r` back into `q` and `r`. */
  lemma {:induction false} Split64(q: int, r: int)
    requires 0 <= r < 64
    ensures (q * 64 + r) / 64 == q && (q * 64 + r) % 64 == r
  {
  }

  lemma {:induction false} Join64(x: int)
    ensures x == x / 64 * 64 + x % 64 && 0 <= x % 64 < 64
  {
  }

  lemma {:induction false} DecodeEncodeChar(c: char, rest: seq<byte>)
    ensures DecodeChar(EncodeChar(c) + rest) == Some((c, |EncodeChar(c)|))
  {
    var cp := c as int;
    if cp < 0x80 {
    } else if cp < 0x800 {
      DecodeEncodeTwo(c, rest);
    } else if cp < 0x1_0000 {
      DecodeEncodeThree(c, rest);
    } else {
      DecodeEncodeFour(c, rest);
    }
  }

  lemma {:induction false} DecodeEncodeTwo(c: char, rest: seq<byte>)
    requires 0x80 <= c as int < 0x800
    ensures DecodeChar(EncodeChar(c) + rest) == Some((c, 2))
  {
    var cp := c as int;
    var bs := EncodeChar(c) + rest;
    Join64(cp);
    assert (bs[0] - 0xC0) * 64 + Bits(bs[1]) == cp;
  }

  lemma {:induction false} DecodeEncodeThree(c: char, rest: seq<byte>)
    requires 0x800 <= c as int < 0x1_0000
    ensures DecodeChar(EncodeChar(c) + rest) == Some((c, 3))
  {
    var cp := c as int;
    var bs := EncodeChar(c) + rest;
    Join64(cp);
    Join64(cp / 64);
    assert ((bs[0] - 0xE0) * 64 + Bits(bs[1])) * 64 + Bits(bs[2]) == cp;
  }

  lemma {:induction false} DecodeEncodeFour(c: char, rest: seq<byte>)
    requires 0x1_0000 <= c as int
    ensures DecodeChar(EncodeChar(c) + rest) == Some((c, 4))
  {
    var cp := c as int;
    var bs := EncodeChar(c) + rest;
    Join64(cp);
    Join64(cp / 64);
    Join64(cp / 64 / 64);
    assert (((bs[0] - 0xF0) * 64 + Bits(bs[1])) * 64 + Bits(bs[2])) * 64 + Bits(bs[3]) == cp;
  }

  /** Reading back what Encode writes gives the text. */
  lemma {:induction false} DecodeEncode(s: string)
    ensures Decode(Encode(s)) == Some(s)
  {
    if s != [] {
      var e := EncodeChar(s[0]);
      DecodeEncodeChar(s[0], Encode(s[1..]));
      assert (e + Encode(s[1..]))[|e|..] == Encode(s[1..]);
      DecodeEncode(s[1..]);
      assert [s[0]] + s[1..] == s;
    }
  }

  /** Decode accepts only what Encode writes: the decoded text encodes back
      to the same bytes. */
  lemma {:induction false} EncodeDecode(bs: seq<byte>, s: string)
    requires Decode(bs) == Some(s)
    ensures Encode(s) == bs
    decreases |bs|
  {
    if bs != [] {
      DecodeStep(bs);
      var (c, k) := DecodeChar(bs).value;
      var tail := Decode(bs[k..]).value;
      EncodeCons(c, tail);
      EncodeDecodeChar(bs);
      EncodeDecode(bs[k..], tail);
      assert bs == bs[..k] + bs[k..];
    }
  }

  lemma {:induction false} EncodeCons(c: char, tail: string)
    ensures Encode([c] + tail) == EncodeChar(c) + Encode(tail)
  {
    var s := [c] + tail;
    assert s[0] == c && s[1..] == tail;
  }

  /** A successful decoding is the first character followed by the
      decoding of the rest. */
  lemma {:induction false} DecodeStep(bs: seq<byte>)
    requires bs != [] && Decode(bs).Some?
    ensures DecodeChar(bs).Some?
    ensures var k := DecodeChar(bs).value.1;
            Decode(bs[k..]).Some?
            && Decode(bs).value == [DecodeChar(bs).value.0] + Decode(bs[k..]).value
  {
  }

  lemma {:induction false} EncodeDecodeChar(bs: seq<byte>)
    requires DecodeChar(bs).Some?
    ensures EncodeChar(DecodeChar(bs).value.0) == bs[..DecodeChar(bs).value.1]
  {
    var k := DecodeChar(bs).value.1;
    if k == 2 {
      EncodeDecode2(bs);
    } else if k == 3 {
      EncodeDecode3(bs);
    } else if k == 4 {
      EncodeDecode4(bs);
    }
  }

  lemma {:induction false} EncodeDecode2(bs: seq<byte>)
    requires DecodeChar(bs).Some? && DecodeChar(bs).value.1 == 2
    ensures EncodeChar(DecodeChar(bs).value.0) == bs[..2]
  {
    Split64(bs[0] as int - 0xC0, Bits(bs[1]));
  }

  lemma {:induction false} EncodeDecode3(bs: seq<byte>)
    requires DecodeChar(bs).Some? && DecodeChar(bs).value.1 == 3
    ensures EncodeChar(DecodeChar(bs).value.0) == bs[..3]
  {
    var hi := (bs[0] as int - 0xE0) * 64 + Bits(bs[1]);
    Split64(hi, Bits(bs[2]));
    Split64(bs[0] as int - 0xE0, Bits(bs[1]));
  }

  lemma {:induction false} EncodeDecode4(bs: seq<byte>)
    requires DecodeChar(bs).Some? && DecodeChar(bs).value.1 == 4
    ensures EncodeChar(DecodeChar(bs).value.0) == bs[..4]
  {
    var mid := (bs[0] as int - 0xF0) * 64 + Bits(bs[1]);
    var hi := mid * 64 + Bits(bs[2]);
    Split64(hi, Bits(bs[3]));
    Split64(mid, Bits(bs[2]));
    Split64(bs[0] as int - 0xF0, Bits(bs[1]));
  }
}
