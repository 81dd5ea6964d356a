/** JSON text as JSON.stringify writes it and JSON.parse reads it, for values
    whose numbers are integers. */
module Json {
  import opened Wrappers
  import Numbers

  /** A JSON value. An object keeps its members in enumeration order. */
  datatype Json =
    | Null
    | Bool(b: bool)
    | Num(n: int)
    | Str(s: string)
    | Arr(items: seq<Json>)
    | Obj(members: seq<(string, Json)>)

  /** The empty object `{}`. */
  const EmptyObject: Json := Obj([])

  /** Truthiness of a JSON value in JavaScript. */
  predicate Truthy(v: Json) {
    match v
    case Null => false
    case Bool(b) => b
    case Num(n) => n != 0
    case Str(s) => s != ""
    case _ => true
  }

  predicate DistinctKeys(ms: seq<(string, Json)>) {
    forall i, j :: 0 <= i < j < |ms| ==> ms[i].0 != ms[j].0
  }

  /** Keys are distinct in every object, at every depth, as in any object
      JavaScript can hold. */
  predicate WellFormed(v: Json) {
    match v
    case Arr(items) => forall i :: 0 <= i < |items| ==> WellFormed(items[i])
    case Obj(ms) => DistinctKeys(ms) && forall i :: 0 <= i < |ms| ==> WellFormed(ms[i].1)
    case _ => true
  }

  // ---------------------------------------------------------------------
  // JSON.stringify

  function HexDigit(d: nat): char
    requires d < 16
  {
    if d < 10 then ('0' as int + d) as char else ('a' as int + d - 10) as char
  }

  /** QuoteJSONString's treatment of one character: the two-character
      escapes, \u00xx for the other control characters, the rest as is. */
  function EscapeChar(c: char): string {
    if c == '"' then "\\\""
    else if c == '\\' then "\\\\"
    else if c == '\U{8}' then "\\b"
    else if c == '\U{C}' then "\\f"
    else if c == '\n' then "\\n"
    else if c == '\r' then "\\r"
    else if c == '\t' then "\\t"
    else if c < ' ' then "\\u00" + [HexDigit(c as int / 16), HexDigit(c as int % 16)]
    else [c]
  }

  function Escape(s: string): string {
    if s == [] then "" else EscapeChar(s[0]) + Escape(s[1..])
  }

  function Quote(s: string): string {
    "\"" + Escape(s) + "\""
  }

  /** JSON.stringify without indentation. */
  function Stringify(v: Json): (s: string)
    ensures s != []
  {
    match v
    case Null => "null"
    case Bool(b) => if b then "true" else "false"
    case Num(n) => Numbers.IntToString(n)
    case Str(s) => Quote(s)
    case Arr(items) => "[" + StringifyItems(items) + "]"
    case Obj(ms) => "{" + StringifyMembers(ms) + "}"
  }

  function StringifyItems(items: seq<Json>): string {
    if items == [] then ""
    else if |items| == 1 then Stringify(items[0])
    else Stringify(items[0]) + "," + StringifyItems(items[1..])
  }

  function StringifyMember(m: (string, Json)): string {
    Quote(m.0) + ":" + Stringify(m.1)
  }

  function StringifyMembers(ms: seq<(string, Json)>): string {
    if ms == [] then ""
    else if |ms| == 1 then StringifyMember(ms[0])
    else StringifyMember(ms[0]) + "," + StringifyMembers(ms[1..])
  }

  // ---------------------------------------------------------------------
  // JSON.parse

  /** JSON insignificant whitespace. */
  predicate IsWs(c: char) {
    c == ' ' || c == '\t' || c == '\n' || c == '\r'
  }

  function SkipWs(s: string): (r: string)
    ensures |r| <= |s|
  {
    if s != [] && IsWs(s[0]) then SkipWs(s[1..]) else s
  }

  function HexValue(c: char): (r: Option<nat>)
    ensures r.Some? ==> r.value < 16
  {
    if '0' <= c <= '9' then Some(c as int - '0' as int)
    else if 'a' <= c <= 'f' then Some(c as int - 'a' as int + 10)
    else if 'A' <= c <= 'F' then Some(c as int - 'A' as int + 10)
    else None
  }

  /** The value of four hexadecimal digits. */
  function CodeUnit(a: nat, b: nat, c: nat, d: nat): (n: nat)
    requires a < 16 && b < 16 && c < 16 && d < 16
    ensures n < 0x1_0000
  {
    a * 4096 + b * 256 + c * 16 + d
  }

  /** The character an escape sequence stands for, and how many characters
      after the backslash it takes. A \u escape of a surrogate has no
      character of its own and is refused. */
  function ParseEscape(s: string): (r: Option<(char, nat)>)
    ensures r.Some? ==> 1 <= r.value.1 <= |s|
  {
    if s == [] then None
    else if s[0] == '"' then Some(('"', 1))
    else if s[0] == '\\' then Some(('\\', 1))
    else if s[0] == '/' then Some(('/', 1))
    else if s[0] == 'b' then Some(('\U{8}', 1))
    else if s[0] == 'f' then Some(('\U{C}', 1))
    else if s[0] == 'n' then Some(('\n', 1))
    else if s[0] == 'r' then Some(('\r', 1))
    else if s[0] == 't' then Some(('\t', 1))
    else if s[0] == 'u' && |s| >= 5 then
      match (HexValue(s[1]), HexValue(s[2]), HexValue(s[3]), HexValue(s[4]))
      case (Some(a), Some(b), Some(c), Some(d)) =>
        var code := CodeUnit(a, b, c, d);
        if 0xD800 <= code <= 0xDFFF then None else Some((code as char, 5))
      case _ => None
    else None
  }

  /** The body of a string literal up to its closing quote, and what follows
      that quote. Raw control characters are refused. */
  function ParseString(s: string): (r: Option<(string, string)>)
    ensures r.Some? ==> |r.value.1| < |s|
  {
    if s == [] then None
    else if s[0] == '"' then Some(([], s[1..]))
    else if s[0] == '\\' then
      match ParseEscape(s[1..])
      case None => None
      case Some((c, k)) =>
        match ParseString(s[1 + k..])
        case None => None
        case Some((body, rest)) => Some(([c] + body, rest))
    else if s[0] < ' ' then None
    else
      match ParseString(s[1..])
      case None => None
      case Some((body, rest)) => Some(([s[0]] + body, rest))
  }

  /** A JSON number with no fraction and no exponent: an optional minus, then
      0 or a digit run not starting with 0. */
  function ParseNumber(t: string): (r: Option<(Json, string)>)
    ensures r.Some? ==> |r.value.1| < |t|
  {
    var neg := t != [] && t[0] == '-';
    var u := if neg then t[1..] else t;
    if u == [] || !Numbers.IsDigit(u[0]) then None
    else
      var n := if u[0] == '0' then 1 else Numbers.DigitRun(u);
      var v := Numbers.Value(u[..n]);
      Some((Num(if neg then -(v as int) else v), u[n..]))
  }

  function ParseLiteral(t: string, word: string, v: Json): (r: Option<(Json, string)>)
    requires |word| >= 1
    ensures r.Some? ==> |r.value.1| < |t|
  {
    if |word| <= |t| && t[..|word|] == word then Some((v, t[|word|..])) else None
  }

  /** A member set as JSON.parse sets it: a new key is appended, a repeated
      key has its value replaced in place. */
  function Put(ms: seq<(string, Json)>, key: string, v: Json): seq<(string, Json)> {
    if ms == [] then [(key, v)]
    else if ms[0].0 == key then [(key, v)] + ms[1..]
    else [ms[0]] + Put(ms[1..], key, v)
  }

  function ParseValue(s: string): (r: Option<(Json, string)>)
    ensures r.Some? ==> |r.value.1| < |s|
    decreases |s|, 1
  {
    var t := SkipWs(s);
    if t == [] then None
    else if t[0] == 'n' then ParseLiteral(t, "null", Null)
    else if t[0] == 't' then ParseLiteral(t, "true", Bool(true))
    else if t[0] == 'f' then ParseLiteral(t, "false", Bool(false))
    else if t[0] == '"' then
      match ParseString(t[1..])
      case None => None
      case Some((body, rest)) => Some((Str(body), rest))
    else if t[0] == '[' then ParseArray(t[1..])
    else if t[0] == '{' then ParseObject(t[1..])
    else if t[0] == '-' || Numbers.IsDigit(t[0]) then ParseNumber(t)
    else None
  }

  /** What follows an opening bracket. */
  function ParseArray(s: string): (r: Option<(Json, string)>)
    ensures r.Some? ==> |r.value.1| < |s|
    decreases |s|, 3
  {
    var t := SkipWs(s);
    if t != [] && t[0] == ']' then Some((Arr([]), t[1..]))
    else
      match ParseItems(t)
      case None => None
      case Some((items, rest)) => Some((Arr(items), rest))
  }

  /** One or more comma-separated values and the closing bracket. */
  function ParseItems(s: string): (r: Option<(seq<Json>, string)>)
    ensures r.Some? ==> |r.value.1| < |s|
    decreases |s|, 2
  {
    match ParseValue(s)
    case None => None
    case Some((v, rest)) =>
      var t := SkipWs(rest);
      if t == [] then None
      else if t[0] == ']' then Some(([v], t[1..]))
      else if t[0] == ',' then
        match ParseItems(t[1..])
        case None => None
        case Some((vs, rest')) => Some(([v] + vs, rest'))
      else None
  }

  /** What follows an opening brace. */
  function ParseObject(s: string): (r: Option<(Json, string)>)
    ensures r.Some? ==> |r.value.1| < |s|
    decreases |s|, 3
  {
    var t := SkipWs(s);
    if t != [] && t[0] == '}' then Some((Obj([]), t[1..]))
    else
      match ParseMembers(t, [])
      case None => None
      case Some((ms, rest)) => Some((Obj(ms), rest))
  }

  /** One or more comma-separated members and the closing brace, set one
      after the other into `acc`. */
  function ParseMembers(s: string, acc: seq<(string, Json)>): (r: Option<(seq<(string, Json)>, string)>)
    ensures r.Some? ==> |r.value.1| < |s|
    decreases |s|, 2
  {
    var t := SkipWs(s);
    if t == [] || t[0] != '"' then None
    else
      match ParseString(t[1..])
      case None => None
      case Some((key, rest)) =>
        var u := SkipWs(rest);
        if u == [] || u[0] != ':' then None
        else
          match ParseValue(u[1..])
          case None => None
          case Some((v, rest')) =>
            var w := SkipWs(rest');
            var acc' := Put(acc, key, v);
            if w == [] then None
            else if w[0] == '}' then Some((acc', w[1..]))
            else if w[0] == ',' then ParseMembers(w[1..], acc')
            else None
  }

  /** JSON.parse: one value, with nothing but whitespace around it. */
  function Parse(s: string): (r: Option<Json>)
    ensures s == [] ==> r.None?
  {
    match ParseValue(s)
    case None => None
    case Some((v, rest)) => if SkipWs(rest) == [] then Some(v) else None
  }
}
