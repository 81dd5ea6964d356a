/** The base64url encoding of section 5 of RFC 4648 without padding, as
    Buffer.toString("base64url") writes it, and a strict reader for it. */
module Base64Url {
  import opened Wrappers
  import opened Bytes

  /** The 64 symbols: A-Z, a-z, 0-9, '-' and '_'. */
  predicate InAlphabet(c: char) {
    'A' <= c <= 'Z' || 'a' <= c <= 'z' || '0' <= c <= '9' || c == '-' || c == '_'
  }

  /** The symbol for a six-bit value. */
  function Symbol(d: int): (c: char)
    requires 0 <= d < 64
    ensures InAlphabet(c) && SymbolValue(c) == Some(d)
  {
    if d < 26 then ('A' as int + d) as char
    else if d < 52 then ('a' as int + d - 26) as char
    else if d < 62 then ('0' as int + d - 52) as char
    else if d == 62 then '-'
    else '_'
  }

  /** The six-bit value of a symbol, or None for any other character. */
  function SymbolValue(c: char): (r: Option<int>)
    ensures r.Some? <==> InAlphabet(c)
    ensures r.Some? ==> 0 <= r.value < 64
  {
    if 'A' <= c <= 'Z' then Some(c as int - 'A' as int)
    else if 'a' <= c <= 'z' then Some(c as int - 'a' as int + 26)
    else if '0' <= c <= '9' then Some(c as int - '0' as int + 52)
    else if c == '-' then Some(62)
    else if c == '_' then Some(63)
    else None
  }

  /** The six-bit values of one group of one to three bytes: three bytes
      become four values, one or two bytes become two or three values, the
      unused low bits zero. */
  function Group(g: seq<byte>): (ds: seq<int>)
    requires 1 <= |g| <= 3
    ensures |ds| == |g| + 1
    ensures forall i :: 0 <= i < |ds| ==> 0 <= ds[i] < 64
  {
    if |g| == 1 then [g[0] / 4, g[0] % 4 * 16]
    else if |g| == 2 then [g[0] / 4, g[0] % 4 * 16 + g[1] / 16, g[1] % 16 * 4]
    else [g[0] / 4, g[0] % 4 * 16 + g[1] / 16, g[1] % 16 * 4 + g[2] / 64, g[2] % 64]
  }

  /** The six-bit values of `bs`, group by group. */
  function Pack(bs: seq<byte>): (ds: seq<int>)
    ensures forall i :: 0 <= i < |ds| ==> 0 <= ds[i] < 64
    ensures |ds| == (4 * |bs| + 2) / 3
    decreases |bs|
  {
    if bs == [] then []
    else if |bs| <= 3 then Group(bs)
    else Group(bs[..3]) + Pack(bs[3..])
  }

  /** The symbols of six-bit values. */
  function Symbols(ds: seq<int>): (s: string)
    requires forall i :: 0 <= i < |ds| ==> 0 <= ds[i] < 64
    ensures |s| == |ds| && forall i :: 0 <= i < |s| ==> InAlphabet(s[i])
  {
    seq(|ds|, i requires 0 <= i < |ds| => Symbol(ds[i]))
  }

  /** Buffer.toString("base64url"): the symbols of the packed bytes, with no
      '=' padding. */
  function Encode(bs: seq<byte>): (s: string)
    ensures forall i :: 0 <= i < |s| ==> InAlphabet(s[i])
    ensures '=' !in s
    ensures |s| == (4 * |bs| + 2) / 3
  {
    Symbols(Pack(bs))
  }

  /** The values of every symbol of `s`, or None when one is outside the
      alphabet. */
  function Values(s: string): (r: Option<seq<int>>)
    ensures r.None? <==> exists i :: 0 <= i < |s| && !InAlphabet(s[i])
    ensures r.Some? ==> |r.value| == |s| && forall i :: 0 <= i < |s| ==> 0 <= r.value[i] < 64
  {
    if s == [] then Some([])
    else
      match (SymbolValue(s[0]), Values(s[1..]))
      case (Some(d), Some(ds)) => Some([d] + ds)
      case _ => None
  }

  /** The bytes of one group of up to four six-bit values. The bits left
      over after the last whole byte are dropped, and a lone value, which
      holds less than a byte, gives none. */
  function Ungroup(ds: seq<int>): seq<byte>
    requires |ds| <= 4
    requires forall i :: 0 <= i < |ds| ==> 0 <= ds[i] < 64
  {
    if |ds| <= 1 then []
    else if |ds| == 2 then [ds[0] * 4 + ds[1] / 16]
    else if |ds| == 3 then [ds[0] * 4 + ds[1] / 16, ds[1] % 16 * 16 + ds[2] / 4]
    else [ds[0] * 4 + ds[1] / 16, ds[1] % 16 * 16 + ds[2] / 4, ds[2] % 4 * 64 + ds[3]]
  }

  /** Bytes from six-bit values, four at a time. */
  function Unpack(ds: seq<int>): seq<byte>
    requires forall i :: 0 <= i < |ds| ==> 0 <= ds[i] < 64
    decreases |ds|
  {
    if |ds| <= 4 then Ungroup(ds)
    else Ungroup(ds[..4]) + Unpack(ds[4..])
  }

  /** The bytes `s` stands for, or None when it holds a character outside
      the alphabet. */
  function Decode(s: string): (r: Option<seq<byte>>)
    ensures r.None? <==> exists i :: 0 <= i < |s| && !InAlphabet(s[i])
  {
    match Values(s)
    case None => None
    case Some(ds) => Some(Unpack(ds))
  }

  /** Every symbol is the symbol of its own value. */
  lemma {:induction false} SymbolOfValue(c: char)
    requires InAlphabet(c)
    ensures Symbol(SymbolValue(c).value) == c
  {
  }

  lemma {:induction false} ValuesOfSymbols(ds: seq<int>)
    requires forall i :: 0 <= i < |ds| ==> 0 <= ds[i] < 64
    ensures Values(Symbols(ds)) == Some(ds)
    decreases |ds|
  {
    if ds != [] {
      var s := Symbols(ds);
      assert s[1..] == Symbols(ds[1..]);
      ValuesOfSymbols(ds[1..]);
      assert [ds[0]] + ds[1..] == ds;
    }
  }

  lemma {:induction false} DivMod(q: int, r: int, d: int)
    requires d == 4 || d == 16 || d == 64
    requires 0 <= r < d
    ensures (q * d + r) / d == q && (q * d + r) % d == r
  {
    if d == 4 {
    } else if d == 16 {
    } else {
    }
  }

  /** One group's values give its bytes back. */
  lemma {:induction false} UngroupGroup(g: seq<byte>)
    requires 1 <= |g| <= 3
    ensures Ungroup(Group(g)) == g
  {
    var a := g[0];
    DivMod(a % 4, 0, 16);
    if |g| >= 2 {
      var b := g[1];
      DivMod(a % 4, b / 16, 16);
      DivMod(b % 16, 0, 4);
      if |g| == 3 {
        DivMod(b % 16, g[2] / 64, 4);
      }
    }
  }

  /** Unpacking undoes packing, one group of three bytes at a time. */
  lemma {:induction false} UnpackPack(bs: seq<byte>)
    ensures Unpack(Pack(bs)) == bs
    decreases |bs|
  {
    if 1 <= |bs| <= 3 {
      UngroupGroup(bs);
    } else if |bs| > 3 {
      var head := Group(bs[..3]);
      var ds := Pack(bs);
      assert ds[..4] == head && ds[4..] == Pack(bs[3..]);
      UngroupGroup(bs[..3]);
      UnpackPack(bs[3..]);
      assert bs == bs[..3] + bs[3..];
    }
  }

  /** Decoding what Encode wrote gives the bytes back. */
  lemma {:induction false} DecodeEncode(bs: seq<byte>)
    ensures Decode(Encode(bs)) == Some(bs)
  {
    ValuesOfSymbols(Pack(bs));
    UnpackPack(bs);
  }
}
