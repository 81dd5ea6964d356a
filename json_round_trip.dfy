/** JSON.parse reads back what JSON.stringify writes: the lemmas about the
    Json module, one parser step at a time. */
module JsonRoundTrip {
  import opened Wrappers
  import opened Json
  import Numbers

  /** What may follow a value in JSON.stringify's output: nothing, or a
      comma, a closing bracket or a closing brace. */
  predicate Follows(rest: string) {
    rest == [] || rest[0] == ',' || rest[0] == ']' || rest[0] == '}'
  }

  lemma {:induction false} SkipWsNone(s: string)
    requires s == [] || !IsWs(s[0])
    ensures SkipWs(s) == s
  {
  }

  lemma {:induction false} HexRoundTrip(d: nat)
    requires d < 16
    ensures HexValue(HexDigit(d)) == Some(d)
  {
  }

  /** Reads a body of the form `[c] + body` from what follows `ParseString(t)`. */
  function Prepend(c: char, r: Option<(string, string)>): Option<(string, string)> {
    match r
    case None => None
    case Some((body, rest)) => Some(([c] + body, rest))
  }

  predicate ShortEscaped(c: char) {
    c == '"' || c == '\\' || c == '\U{8}' || c == '\U{C}' || c == '\n' || c == '\r' || c == '\t'
  }

  lemma {:induction false} EscapeCharRoundTrip(c: char, t: string)
    ensures ParseString(EscapeChar(c) + t) == Prepend(c, ParseString(t))
  {
    if ShortEscaped(c) {
      ShortEscapeRoundTrip(c, t);
    } else if c < ' ' {
      ControlEscapeRoundTrip(c, t);
    } else {
      var s := EscapeChar(c) + t;
      assert s[0] == c && s[1..] == t;
    }
  }

  lemma {:induction false} ShortEscapeRoundTrip(c: char, t: string)
    requires ShortEscaped(c)
    ensures ParseString(EscapeChar(c) + t) == Prepend(c, ParseString(t))
  {
    var s := EscapeChar(c) + t;
    assert |EscapeChar(c)| == 2 && s[0] == '\\';
    assert ParseEscape(s[1..]) == Some((c, 1));
    assert s[2..] == t;
  }

  lemma {:induction false} ControlEscapeRoundTrip(c: char, t: string)
    requires c < ' ' && !ShortEscaped(c)
    ensures ParseString(EscapeChar(c) + t) == Prepend(c, ParseString(t))
  {
    var s := EscapeChar(c) + t;
    var hi, lo := c as int / 16, c as int % 16;
    HexRoundTrip(hi);
    HexRoundTrip(lo);
    assert EscapeChar(c) == "\\u00" + [HexDigit(hi), HexDigit(lo)];
    assert s[0] == '\\';
    var e := s[1..];
    assert e[0] == 'u' && e[1] == '0' && e[2] == '0' && e[3] == HexDigit(hi) && e[4] == HexDigit(lo);
    assert CodeUnit(0, 0, hi, lo) == c as int;
    assert ParseEscape(e) == Some((c, 5));
    assert s[6..] == t;
  }

  lemma {:induction false} StringRoundTrip(body: string, rest: string)
    ensures ParseString(Escape(body) + "\"" + rest) == Some((body, rest))
    decreases |body|
  {
    if body == [] {
      assert Escape(body) + "\"" + rest == "\"" + rest;
    } else {
      var tail := Escape(body[1..]) + "\"" + rest;
      assert Escape(body) + "\"" + rest == EscapeChar(body[0]) + tail;
      EscapeCharRoundTrip(body[0], tail);
      StringRoundTrip(body[1..], rest);
      assert [body[0]] + body[1..] == body;
    }
  }

  lemma {:induction false} NumberRoundTrip(n: int, rest: string)
    requires rest == [] || !Numbers.IsDigit(rest[0])
    ensures ParseNumber(Numbers.IntToString(n) + rest) == Some((Num(n), rest))
  {
    var m: nat := if n < 0 then -n else n;
    var d := Numbers.NatToString(m);
    var u := d + rest;
    DigitsRoundTrip(d, rest);
    if n < 0 {
      var t := "-" + d + rest;
      assert t[0] == '-' && t[1..] == u;
      assert ParseNumber(t) == Some((Num(n), rest));
    } else {
      assert ParseNumber(u) == Some((Num(n), rest));
    }
  }

  /** The digits of a canonical number are read back whole. */
  lemma {:induction false} DigitsRoundTrip(d: string, rest: string)
    requires Numbers.Canonical(d)
    requires rest == [] || !Numbers.IsDigit(rest[0])
    ensures var u := d + rest;
            && u != [] && Numbers.IsDigit(u[0]) && u[0] != '-'
            && (if u[0] == '0' then 1 else Numbers.DigitRun(u)) == |d|
            && u[..|d|] == d && u[|d|..] == rest
  {
    var u := d + rest;
    assert u[0] == d[0];
    if d[0] == '0' {
      assert |d| == 1;
    } else {
      Numbers.DigitRunOfDigits(d, rest);
    }
    assert u[..|d|] == d;
    assert u[|d|..] == rest;
  }

  lemma {:induction false} StringifyStart(v: Json)
    ensures Stringify(v) != [] && !IsWs(Stringify(v)[0]) && Stringify(v)[0] != ']'
  {
    if v.Num? {
      var d := Numbers.NatToString(if v.n < 0 then -v.n else v.n);
      assert Numbers.IsDigit(d[0]);
    }
  }

  // One step of the parser at a time, each from a string with no leading
  // whitespace.

  lemma {:induction false} ValueAtLiteral(t: string, word: string, v: Json)
    requires SkipWs(t) == t && |word| >= 1 && HasWord(t, word)
    requires (word == "null" && v == Null) || (word == "true" && v == Bool(true))
          || (word == "false" && v == Bool(false))
    ensures ParseValue(t) == Some((v, t[|word|..]))
  {
    assert t[0] == word[0];
  }

  predicate HasWord(t: string, word: string) {
    |word| <= |t| && t[..|word|] == word
  }

  lemma {:induction false} ValueAtNumber(t: string)
    requires SkipWs(t) == t && t != [] && (t[0] == '-' || Numbers.IsDigit(t[0]))
    ensures ParseValue(t) == ParseNumber(t)
  {
  }

  lemma {:induction false} ValueAtString(t: string, body: string, rest: string)
    requires SkipWs(t) == t && t != [] && t[0] == '"'
    requires ParseString(t[1..]) == Some((body, rest))
    ensures ParseValue(t) == Some((Str(body), rest))
  {
  }

  lemma {:induction false} ValueAtArray(t: string)
    requires SkipWs(t) == t && t != [] && t[0] == '['
    ensures ParseValue(t) == ParseArray(t[1..])
  {
  }

  lemma {:induction false} ValueAtObject(t: string)
    requires SkipWs(t) == t && t != [] && t[0] == '{'
    ensures ParseValue(t) == ParseObject(t[1..])
  {
  }

  lemma {:induction false} ArrayAtClose(t: string)
    requires SkipWs(t) == t && t != [] && t[0] == ']'
    ensures ParseArray(t) == Some((Arr([]), t[1..]))
  {
  }

  lemma {:induction false} ArrayAtItem(t: string, items: seq<Json>, rest: string)
    requires SkipWs(t) == t && t != [] && t[0] != ']'
    requires ParseItems(t) == Some((items, rest))
    ensures ParseArray(t) == Some((Arr(items), rest))
  {
  }

  lemma {:induction false} ObjectAtClose(t: string)
    requires SkipWs(t) == t && t != [] && t[0] == '}'
    ensures ParseObject(t) == Some((Obj([]), t[1..]))
  {
  }

  lemma {:induction false} ObjectAtMember(t: string, ms: seq<(string, Json)>, rest: string)
    requires SkipWs(t) == t && t != [] && t[0] != '}'
    requires ParseMembers(t, []) == Some((ms, rest))
    ensures ParseObject(t) == Some((Obj(ms), rest))
  {
  }

  lemma {:induction false} ItemsLast(s: string, v: Json, tail: string)
    requires ParseValue(s) == Some((v, tail))
    requires SkipWs(tail) == tail && tail != [] && tail[0] == ']'
    ensures ParseItems(s) == Some(([v], tail[1..]))
  {
  }

  lemma {:induction false} ItemsMore(s: string, v: Json, tail: string, vs: seq<Json>, rest: string)
    requires ParseValue(s) == Some((v, tail))
    requires SkipWs(tail) == tail && tail != [] && tail[0] == ','
    requires ParseItems(tail[1..]) == Some((vs, rest))
    ensures ParseItems(s) == Some(([v] + vs, rest))
  {
  }

  lemma {:induction false} MemberStep(t: string, acc: seq<(string, Json)>, key: string, afterKey: string, v: Json, tail: string)
    requires SkipWs(t) == t && t != [] && t[0] == '"'
    requires ParseString(t[1..]) == Some((key, afterKey))
    requires SkipWs(afterKey) == afterKey && afterKey != [] && afterKey[0] == ':'
    requires ParseValue(afterKey[1..]) == Some((v, tail))
    requires SkipWs(tail) == tail && tail != [] && (tail[0] == '}' || tail[0] == ',')
    ensures tail[0] == '}' ==> ParseMembers(t, acc) == Some((Put(acc, key, v), tail[1..]))
    ensures tail[0] == ',' ==> ParseMembers(t, acc) == ParseMembers(tail[1..], Put(acc, key, v))
  {
  }

  lemma {:induction false} LiteralRoundTrip(word: string, v: Json, rest: string)
    requires word == Stringify(v)
    requires v == Null || v == Bool(true) || v == Bool(false)
    ensures ParseValue(word + rest) == Some((v, rest))
  {
    var s := word + rest;
    SkipWsNone(s);
    assert s[..|word|] == word;
    ValueAtLiteral(s, word, v);
    assert s[|word|..] == rest;
  }

  lemma {:induction false} NumRoundTrip(n: int, rest: string)
    requires Follows(rest)
    ensures ParseValue(Stringify(Num(n)) + rest) == Some((Num(n), rest))
  {
    var s := Stringify(Num(n)) + rest;
    var d := Numbers.NatToString(if n < 0 then -n else n);
    assert Numbers.IsDigit(d[0]);
    assert s[0] == '-' || Numbers.IsDigit(s[0]);
    SkipWsNone(s);
    ValueAtNumber(s);
    NumberRoundTrip(n, rest);
  }

  lemma {:induction false} StrRoundTrip(body: string, rest: string)
    ensures ParseValue(Stringify(Str(body)) + rest) == Some((Str(body), rest))
  {
    var s := Stringify(Str(body)) + rest;
    SkipWsNone(s);
    assert s[1..] == Escape(body) + "\"" + rest;
    StringRoundTrip(body, rest);
    ValueAtString(s, body, rest);
  }

  lemma {:induction false} ValueRoundTrip(v: Json, rest: string)
    requires WellFormed(v) && Follows(rest)
    ensures ParseValue(Stringify(v) + rest) == Some((v, rest))
    decreases v, 0
  {
    match v
    case Null => LiteralRoundTrip("null", v, rest);
    case Bool(b) => LiteralRoundTrip(if b then "true" else "false", v, rest);
    case Num(n) => NumRoundTrip(n, rest);
    case Str(body) => StrRoundTrip(body, rest);
    case Arr(items) => ArrRoundTrip(items, rest);
    case Obj(ms) => ObjRoundTrip(ms, rest);
  }

  lemma {:induction false} ArrRoundTrip(items: seq<Json>, rest: string)
    requires forall i :: 0 <= i < |items| ==> WellFormed(items[i])
    requires Follows(rest)
    ensures ParseValue(Stringify(Arr(items)) + rest) == Some((Arr(items), rest))
    decreases items, 1
  {
    var s := Stringify(Arr(items)) + rest;
    var inner := StringifyItems(items) + "]" + rest;
    ArrayBracket(items, rest);
    ValueAtArray(s);
    if items == [] {
      EmptyArrayClose(rest);
    } else {
      ItemsStart(items, rest);
      ItemsRoundTrip(items, rest);
      ArrayAtItem(inner, items, rest);
    }
  }

  lemma {:induction false} ArrayBracket(items: seq<Json>, rest: string)
    ensures SkipWs(Stringify(Arr(items)) + rest) == Stringify(Arr(items)) + rest
    ensures (Stringify(Arr(items)) + rest)[0] == '['
    ensures (Stringify(Arr(items)) + rest)[1..] == StringifyItems(items) + "]" + rest
  {
    var s := Stringify(Arr(items)) + rest;
    assert s == "[" + (StringifyItems(items) + "]" + rest);
    SkipWsNone(s);
  }

  lemma {:induction false} EmptyArrayClose(rest: string)
    ensures ParseArray(StringifyItems([]) + "]" + rest) == Some((Arr([]), rest))
  {
    var inner := StringifyItems([]) + "]" + rest;
    assert inner == "]" + rest;
    SkipWsNone(inner);
    ArrayAtClose(inner);
    assert inner[1..] == rest;
  }

  /** The items of a non-empty array start with the first item's text. */
  lemma {:induction false} ItemsStart(items: seq<Json>, rest: string)
    requires |items| >= 1
    ensures SkipWs(StringifyItems(items) + "]" + rest) == StringifyItems(items) + "]" + rest
    ensures StringifyItems(items) + "]" + rest != []
    ensures (StringifyItems(items) + "]" + rest)[0] != ']'
  {
    var inner := StringifyItems(items) + "]" + rest;
    StringifyStart(items[0]);
    if |items| > 1 {
      assert StringifyItems(items) == Stringify(items[0]) + "," + StringifyItems(items[1..]);
    }
    assert inner[0] == Stringify(items[0])[0];
    SkipWsNone(inner);
  }


  /** The text after the first item of an array's items. */
  function ItemsTail(items: seq<Json>, rest: string): string
    requires |items| >= 1
  {
    if |items| == 1 then "]" + rest else "," + (StringifyItems(items[1..]) + "]" + rest)
  }

  lemma {:induction false} ItemsHead(items: seq<Json>, rest: string)
    requires |items| >= 1
    ensures StringifyItems(items) + "]" + rest == Stringify(items[0]) + ItemsTail(items, rest)
  {
    var m := Stringify(items[0]);
    if |items| == 1 {
      Assoc(m, "]", rest);
    } else {
      var x := StringifyItems(items[1..]);
      Assoc(m + ",", x, "]");
      Assoc(m + ",", x + "]", rest);
      Assoc(m, ",", x + "]" + rest);
    }
  }

  lemma {:induction false} ItemsRoundTrip(items: seq<Json>, rest: string)
    requires |items| >= 1
    requires forall i :: 0 <= i < |items| ==> WellFormed(items[i])
    requires Follows(rest)
    ensures ParseItems(StringifyItems(items) + "]" + rest) == Some((items, rest))
    decreases items, 0
  {
    var s := StringifyItems(items) + "]" + rest;
    var tail := ItemsTail(items, rest);
    ItemsHead(items, rest);
    ValueRoundTrip(items[0], tail);
    SkipWsNone(tail);
    if |items| == 1 {
      ItemsLast(s, items[0], tail);
      assert tail[1..] == rest;
      assert [items[0]] == items;
    } else {
      assert tail[1..] == StringifyItems(items[1..]) + "]" + rest;
      ItemsRoundTrip(items[1..], rest);
      ItemsMore(s, items[0], tail, items[1..], rest);
      assert [items[0]] + items[1..] == items;
    }
  }

  lemma {:induction false} ObjRoundTrip(ms: seq<(string, Json)>, rest: string)
    requires DistinctKeys(ms)
    requires forall i :: 0 <= i < |ms| ==> WellFormed(ms[i].1)
    requires Follows(rest)
    ensures ParseValue(Stringify(Obj(ms)) + rest) == Some((Obj(ms), rest))
    decreases ms, 1
  {
    if ms == [] {
      EmptyObjectRoundTrip(rest);
    } else {
      assert [] + ms == ms;
      MembersRoundTrip(ms, [], rest);
      ObjectText(ms, rest);
      ValueAtObject(Stringify(Obj(ms)) + rest);
      ObjectAtMember(StringifyMembers(ms) + "}" + rest, ms, rest);
    }
  }

  lemma {:induction false} EmptyObjectRoundTrip(rest: string)
    ensures ParseValue(Stringify(Obj([])) + rest) == Some((Obj([]), rest))
  {
    var inner := "}" + rest;
    var s := Stringify(Obj([])) + rest;
    assert s == "{" + inner;
    BraceStart(inner);
    ValueAtObject(s);
    SkipWsNone(inner);
    ObjectAtClose(inner);
    assert inner[1..] == rest;
  }

  /** The text of a non-empty object: a brace, then its members starting
      with the quote of the first key. */
  lemma {:induction false} ObjectText(ms: seq<(string, Json)>, rest: string)
    requires |ms| >= 1
    ensures SkipWs(Stringify(Obj(ms)) + rest) == Stringify(Obj(ms)) + rest
    ensures (Stringify(Obj(ms)) + rest)[0] == '{'
    ensures (Stringify(Obj(ms)) + rest)[1..] == StringifyMembers(ms) + "}" + rest
    ensures SkipWs(StringifyMembers(ms) + "}" + rest) == StringifyMembers(ms) + "}" + rest
    ensures StringifyMembers(ms) + "}" + rest != []
    ensures (StringifyMembers(ms) + "}" + rest)[0] == '"'
  {
    ObjectBrace(ms, rest);
    MembersQuote(ms, rest);
  }

  lemma {:induction false} ObjectBrace(ms: seq<(string, Json)>, rest: string)
    ensures SkipWs(Stringify(Obj(ms)) + rest) == Stringify(Obj(ms)) + rest
    ensures (Stringify(Obj(ms)) + rest)[0] == '{'
    ensures (Stringify(Obj(ms)) + rest)[1..] == StringifyMembers(ms) + "}" + rest
  {
    var inner := StringifyMembers(ms) + "}" + rest;
    assert Stringify(Obj(ms)) + rest == "{" + inner;
    BraceStart(inner);
  }

  lemma {:induction false} MembersQuote(ms: seq<(string, Json)>, rest: string)
    requires |ms| >= 1
    ensures SkipWs(StringifyMembers(ms) + "}" + rest) == StringifyMembers(ms) + "}" + rest
    ensures StringifyMembers(ms) + "}" + rest != []
    ensures (StringifyMembers(ms) + "}" + rest)[0] == '"'
  {
    MembersStart(ms, "}" + rest);
    assert StringifyMembers(ms) + "}" + rest == StringifyMembers(ms) + ("}" + rest);
    SkipWsNone(StringifyMembers(ms) + "}" + rest);
  }

  lemma {:induction false} BraceStart(x: string)
    ensures ("{" + x)[0] == '{' && ("{" + x)[1..] == x && SkipWs("{" + x) == "{" + x
  {
    SkipWsNone("{" + x);
  }

  /** The members of a non-empty object start with the quote of a key. */
  lemma {:induction false} MembersStart(ms: seq<(string, Json)>, x: string)
    requires |ms| >= 1
    ensures StringifyMembers(ms) != []
    ensures (StringifyMembers(ms) + x)[0] == '"'
  {
    assert StringifyMember(ms[0])[0] == '"';
    if |ms| > 1 {
      assert StringifyMembers(ms) == StringifyMember(ms[0]) + "," + StringifyMembers(ms[1..]);
    }
  }

  predicate FreshKey(acc: seq<(string, Json)>, key: string) {
    forall i :: 0 <= i < |acc| ==> acc[i].0 != key
  }

  lemma {:induction false} PutFresh(acc: seq<(string, Json)>, key: string, v: Json)
    requires FreshKey(acc, key)
    ensures Put(acc, key, v) == acc + [(key, v)]
    decreases |acc|
  {
    if acc != [] {
      PutFresh(acc[1..], key, v);
    }
  }

  /** The key of a member and its colon, read back. */
  lemma {:induction false} KeyRoundTrip(key: string, afterKey: string)
    requires afterKey != [] && afterKey[0] == ':'
    ensures ParseString((Quote(key) + afterKey)[1..]) == Some((key, afterKey))
  {
    assert (Quote(key) + afterKey)[1..] == Escape(key) + "\"" + afterKey;
    StringRoundTrip(key, afterKey);
  }

  /** One member and what follows it: a closing brace ends the object, a
      comma hands over to the next member. */
  lemma {:induction false} MemberRoundTrip(m: (string, Json), tail: string, acc: seq<(string, Json)>)
    requires WellFormed(m.1)
    requires tail != [] && (tail[0] == '}' || tail[0] == ',')
    ensures tail[0] == '}' ==>
      ParseMembers(StringifyMember(m) + tail, acc) == Some((Put(acc, m.0, m.1), tail[1..]))
    ensures tail[0] == ',' ==>
      ParseMembers(StringifyMember(m) + tail, acc) == ParseMembers(tail[1..], Put(acc, m.0, m.1))
    decreases m, 1
  {
    ValueRoundTrip(m.1, tail);
    MemberAfterValue(m, tail, acc);
  }

  /** The member's key, colon and trailing separator, once its value is known
      to read back. */
  lemma {:induction false} MemberAfterValue(m: (string, Json), tail: string, acc: seq<(string, Json)>)
    requires tail != [] && (tail[0] == '}' || tail[0] == ',')
    requires ParseValue(Stringify(m.1) + tail) == Some((m.1, tail))
    ensures tail[0] == '}' ==>
      ParseMembers(StringifyMember(m) + tail, acc) == Some((Put(acc, m.0, m.1), tail[1..]))
    ensures tail[0] == ',' ==>
      ParseMembers(StringifyMember(m) + tail, acc) == ParseMembers(tail[1..], Put(acc, m.0, m.1))
  {
    var afterKey := ":" + (Stringify(m.1) + tail);
    var s := Quote(m.0) + afterKey;
    MemberText(m, tail);
    ColonStart(Stringify(m.1) + tail);
    QuoteStart(m.0, afterKey);
    KeyRoundTrip(m.0, afterKey);
    SkipWsNone(tail);
    MemberStep(s, acc, m.0, afterKey, m.1, tail);
  }

  lemma {:induction false} MemberText(m: (string, Json), tail: string)
    ensures StringifyMember(m) + tail == Quote(m.0) + (":" + (Stringify(m.1) + tail))
  {
    Assoc(Quote(m.0) + ":", Stringify(m.1), tail);
    Assoc(Quote(m.0), ":", Stringify(m.1) + tail);
  }

  lemma {:induction false} ColonStart(x: string)
    ensures (":" + x)[0] == ':' && (":" + x)[1..] == x && SkipWs(":" + x) == ":" + x
  {
    SkipWsNone(":" + x);
  }

  lemma {:induction false} QuoteStart(key: string, after: string)
    ensures (Quote(key) + after)[0] == '"' && SkipWs(Quote(key) + after) == Quote(key) + after
  {
    SkipWsNone(Quote(key) + after);
  }

  /** The first member of `acc + ms` has a key `acc` does not hold. */
  lemma {:induction false} FreshHead(acc: seq<(string, Json)>, ms: seq<(string, Json)>)
    requires |ms| >= 1 && DistinctKeys(acc + ms)
    ensures FreshKey(acc, ms[0].0)
  {
    forall i | 0 <= i < |acc| ensures acc[i].0 != ms[0].0 {
      assert (acc + ms)[i] == acc[i];
      assert (acc + ms)[|acc|] == ms[0];
    }
  }

  /** The text after the first member of an object's members. */
  function MembersTail(ms: seq<(string, Json)>, rest: string): string
    requires |ms| >= 1
  {
    if |ms| == 1 then "}" + rest else "," + (StringifyMembers(ms[1..]) + "}" + rest)
  }

  lemma {:induction false} MembersHead(ms: seq<(string, Json)>, rest: string)
    requires |ms| >= 1
    ensures StringifyMembers(ms) + "}" + rest == StringifyMember(ms[0]) + MembersTail(ms, rest)
  {
    var m := StringifyMember(ms[0]);
    if |ms| == 1 {
      Assoc(m, "}", rest);
    } else {
      var x := StringifyMembers(ms[1..]);
      Assoc(m + ",", x, "}");
      Assoc(m + ",", x + "}", rest);
      Assoc(m, ",", x + "}" + rest);
    }
  }

  lemma {:induction false} Assoc(a: string, b: string, c: string)
    ensures a + b + c == a + (b + c)
  {
  }

  lemma {:induction false} MembersRoundTrip(ms: seq<(string, Json)>, acc: seq<(string, Json)>, rest: string)
    requires |ms| >= 1
    requires DistinctKeys(acc + ms)
    requires forall i :: 0 <= i < |ms| ==> WellFormed(ms[i].1)
    requires Follows(rest)
    ensures ParseMembers(StringifyMembers(ms) + "}" + rest, acc) == Some((acc + ms, rest))
    decreases ms, 0
  {
    var tail := MembersTail(ms, rest);
    MemberRoundTrip(ms[0], tail, acc);
    MembersHead(ms, rest);
    PutFirst(acc, ms);
    MembersTailRest(ms, rest);
    ConsFirst(acc, ms);
    if |ms| > 1 {
      assert forall i :: 0 <= i < |ms[1..]| ==> ms[1..][i] == ms[i + 1];
      MembersRoundTrip(ms[1..], acc + [ms[0]], rest);
    }
  }

  /** Reading the first member appends it to the list read so far. */
  lemma {:induction false} PutFirst(acc: seq<(string, Json)>, ms: seq<(string, Json)>)
    requires |ms| >= 1 && DistinctKeys(acc + ms)
    ensures Put(acc, ms[0].0, ms[0].1) == acc + [ms[0]]
  {
    FreshHead(acc, ms);
    PutFresh(acc, ms[0].0, ms[0].1);
  }

  /** What follows the separator after the first member. */
  lemma {:induction false} MembersTailRest(ms: seq<(string, Json)>, rest: string)
    requires |ms| >= 1
    ensures |ms| == 1 ==> MembersTail(ms, rest)[1..] == rest
    ensures |ms| > 1 ==> MembersTail(ms, rest)[1..] == StringifyMembers(ms[1..]) + "}" + rest
  {
  }

  lemma {:induction false} ConsFirst(acc: seq<(string, Json)>, ms: seq<(string, Json)>)
    requires |ms| >= 1
    ensures acc + [ms[0]] + ms[1..] == acc + ms
    ensures |ms| == 1 ==> acc + [ms[0]] == acc + ms
  {
    assert [ms[0]] + ms[1..] == ms;
  }

  /** JSON.parse(JSON.stringify(v)) is v, for every value with distinct keys
      in each object. */
  lemma {:induction false} RoundTrip(v: Json)
    requires WellFormed(v)
    ensures Parse(Stringify(v)) == Some(v)
  {
    ValueRoundTrip(v, []);
    assert Stringify(v) + [] == Stringify(v);
  }
}
