/** The HTTP request logger's policies: which level a finished request is
    logged at, the line it writes, and the headers it never records. */
module RequestLogger {
  import Numbers

  datatype Level = Info | Warn | Error

  /** Severity, for comparing levels. */
  function Severity(l: Level): nat {
    match l
    case Info => 0
    case Warn => 1
    case Error => 2
  }

  /** customLogLevel: the response's status and whether the request ended
      in an error. */
  function LogLevel(status: int, failed: bool): (l: Level)
    ensures l == Error <==> failed || status >= 500
    ensures l == Warn <==> !failed && 400 <= status < 500
    ensures l == Info <==> !failed && status < 400
  {
    if failed || status >= 500 then Error
    else if status >= 400 then Warn
    else Info
  }

  /** A higher status, or an error, never lowers the level. */
  lemma {:induction false} LevelMonotone(s1: int, s2: int, f1: bool, f2: bool)
    requires s1 <= s2 && (f1 ==> f2)
    ensures Severity(LogLevel(s1, f1)) <= Severity(LogLevel(s2, f2))
  {
  }

  /** customSuccessMessage: "VERB url -> status", VERB being the request
      method. The verb, the url and the status each sit at a known place. */
  function SuccessMessage(verb: string, url: string, status: int): (m: string)
    ensures |m| == |verb| + |url| + 5 + |Numbers.IntToString(status)|
    ensures m[..|verb|] == verb
    ensures m[|verb| + 1..|verb| + 1 + |url|] == url
    ensures m[|verb| + |url| + 5..] == Numbers.IntToString(status)
    ensures m[|verb|] == ' ' && m[|verb| + 1 + |url|..|verb| + |url| + 5] == " -> "
  {
    var head := verb + " " + url + " -> ";
    assert head[..|verb|] == verb;
    assert head[|verb|] == ' ';
    assert head[|verb| + 1..|verb| + 1 + |url|] == url;
    assert head[|verb| + 1 + |url|..] == " -> ";
    head + Numbers.IntToString(status)
  }

  /** The status can be read back from the end of the line. */
  lemma {:induction false} StatusReadBack(verb: string, url: string, status: int)
    ensures Numbers.ParseInt(SuccessMessage(verb, url, status)[|verb| + |url| + 5..]) == Numbers.Int(status)
  {
    var m := SuccessMessage(verb, url, status);
    assert m[|verb| + |url| + 5..] == Numbers.IntToString(status) + [];
    Numbers.ParseIntOfIntToString(status, []);
  }

  /** The header names the logger removes before writing a request. */
  const RedactedHeaders: set<string> := {"authorization", "cookie"}

  /** The request headers as logged: credentials removed, nothing else. */
  function Redact(headers: map<string, string>): (r: map<string, string>)
    ensures forall h :: h in r <==> h in headers && h !in RedactedHeaders
    ensures forall h :: h in r ==> r[h] == headers[h]
  {
    map h | h in headers && h !in RedactedHeaders :: headers[h]
  }

  /** Redacting twice removes nothing more. */
  lemma {:induction false} RedactIdempotent(headers: map<string, string>)
    ensures Redact(Redact(headers)) == Redact(headers)
  {
  }
}
