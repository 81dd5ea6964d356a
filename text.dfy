/** Strings as the ECMAScript String methods and regular-expression
    character classes used by the service see them. */
module Text {

  /** WhiteSpace or LineTerminator of ECMAScript: what String.prototype.trim
      removes, what parseInt skips and what the class \s matches. */
  predicate IsSpace(c: char) {
    || c == '\t' || c == '\n' || c == '\U{B}' || c == '\U{C}' || c == '\r' || c == ' '
    || c == '\U{A0}' || c == '\U{1680}' || ('\U{2000}' <= c <= '\U{200A}')
    || c == '\U{2028}' || c == '\U{2029}' || c == '\U{202F}' || c == '\U{205F}'
    || c == '\U{3000}' || c == '\U{FEFF}'
  }

  /** LineTerminator of ECMAScript: the characters `.` does not match. */
  predicate IsLineTerminator(c: char) {
    c == '\n' || c == '\r' || c == '\U{2028}' || c == '\U{2029}'
  }

  predicate HasSpace(s: string) {
    exists i :: 0 <= i < |s| && IsSpace(s[i])
  }

  predicate HasLineTerminator(s: string) {
    exists i :: 0 <= i < |s| && IsLineTerminator(s[i])
  }

  predicate HasPrefix(s: string, p: string) {
    |p| <= |s| && s[..|p|] == p
  }

  /** The number of space characters at the start. */
  function LeadingSpace(s: string): (n: nat)
    ensures n <= |s|
    ensures forall i :: 0 <= i < n ==> IsSpace(s[i])
    ensures n == |s| || !IsSpace(s[n])
  {
    if s != [] && IsSpace(s[0]) then 1 + LeadingSpace(s[1..]) else 0
  }

  /** The number of space characters at the end. */
  function TrailingSpace(s: string): (n: nat)
    ensures n <= |s|
    ensures forall i :: |s| - n <= i < |s| ==> IsSpace(s[i])
    ensures n == |s| || !IsSpace(s[|s| - n - 1])
  {
    if s != [] && IsSpace(s[|s| - 1]) then 1 + TrailingSpace(s[..|s| - 1]) else 0
  }

  /** String.prototype.trimStart: drops the longest all-space prefix. */
  function TrimStart(s: string): (r: string)
    ensures |r| <= |s| && r == s[|s| - |r|..]
    ensures forall i :: 0 <= i < |s| - |r| ==> IsSpace(s[i])
    ensures r == [] || !IsSpace(r[0])
  {
    s[LeadingSpace(s)..]
  }

  /** Drops the longest all-space suffix. */
  function TrimEnd(s: string): (r: string)
    ensures |r| <= |s| && r == s[..|r|]
    ensures forall i :: |r| <= i < |s| ==> IsSpace(s[i])
    ensures r == [] || !IsSpace(r[|r| - 1])
  {
    s[..|s| - TrailingSpace(s)]
  }

  /** String.prototype.trim. */
  function Trim(s: string): (r: string)
    ensures |r| <= |s|
    ensures r == [] || (!IsSpace(r[0]) && !IsSpace(r[|r| - 1]))
  {
    TrimEnd(TrimStart(s))
  }

  /** `r` sits at position i of `s` with nothing but space around it. */
  predicate SpaceAround(s: string, r: string, i: int) {
    && 0 <= i <= i + |r| <= |s| && r == s[i..i + |r|]
    && (forall k :: 0 <= k < i ==> IsSpace(s[k]))
    && (forall k :: i + |r| <= k < |s| ==> IsSpace(s[k]))
  }

  /** Trim keeps a middle slice of its input, with nothing but space around it
      and no space at either end of it. */
  lemma {:induction false} TrimIsMiddleSlice(s: string)
    ensures exists i :: SpaceAround(s, Trim(s), i)
    ensures Trim(s) == [] || (!IsSpace(Trim(s)[0]) && !IsSpace(Trim(s)[|Trim(s)| - 1]))
  {
    var t := TrimStart(s);
    var r := TrimEnd(t);
    var i := |s| - |t|;
    assert r == s[i..i + |r|];
    forall k | i + |r| <= k < |s| ensures IsSpace(s[k]) {
      assert s[k] == t[k - i];
    }
    assert SpaceAround(s, r, i);
    if r != [] {
      assert r[0] == t[0];
      assert !IsSpace(r[0]) && !IsSpace(r[|r| - 1]);
    }
    assert Trim(s) == r;
  }

  lemma {:induction false} TrimStartOfTrimmed(s: string)
    requires s == [] || !IsSpace(s[0])
    ensures TrimStart(s) == s
  {
  }

  /** trimStart drops exactly a leading run of space in front of text that
      does not itself begin with space. */
  lemma {:induction false} TrimStartOfPadded(ws: string, t: string)
    requires forall c | c in ws :: IsSpace(c)
    requires t == [] || !IsSpace(t[0])
    ensures TrimStart(ws + t) == t
  {
    var s := ws + t;
    assert forall i :: 0 <= i < |ws| ==> s[i] == ws[i];
    assert t != [] ==> s[|ws|] == t[0];
  }

  /** Text with no space at either end is its own trim. */
  lemma {:induction false} TrimOfUnpadded(s: string)
    requires s != [] && !IsSpace(s[0]) && !IsSpace(s[|s| - 1])
    ensures Trim(s) == s
  {
    TrimStartOfTrimmed(s);
  }

  /** Trimming twice is trimming once. */
  lemma {:induction false} TrimIdempotent(s: string)
    ensures Trim(Trim(s)) == Trim(s)
  {
    var r := Trim(s);
    var t := TrimStart(s);
    if r != [] {
      assert r[0] == t[0];
    }
    TrimStartOfTrimmed(r);
  }

  /** ASCII lower-casing of one character. */
  function LowerChar(c: char): char {
    if 'A' <= c <= 'Z' then (c as int + 32) as char else c
  }

  function Lower(s: string): (r: string)
    ensures |r| == |s|
    ensures forall i :: 0 <= i < |s| ==> r[i] == LowerChar(s[i])
  {
    seq(|s|, i requires 0 <= i < |s| => LowerChar(s[i]))
  }

  /** `needle` occurs in `hay`, letters compared without regard to case. */
  predicate ContainsIgnoringCase(hay: string, needle: string) {
    exists i :: 0 <= i && i + |needle| <= |hay| && MatchesAt(hay, needle, i)
  }

  predicate MatchesAt(hay: string, needle: string, i: nat)
    requires i + |needle| <= |hay|
  {
    Lower(hay[i..i + |needle|]) == Lower(needle)
  }

  /** Index of the first occurrence of `c` in `s`. */
  function IndexOf(s: string, c: char): (i: nat)
    requires c in s
    ensures i < |s| && s[i] == c && c !in s[..i]
  {
    if s[0] == c then 0 else 1 + IndexOf(s[1..], c)
  }

  /** The pieces joined back with the separator between them. */
  function Join(parts: seq<string>, sep: char): string
    requires |parts| >= 1
  {
    if |parts| == 1 then parts[0] else parts[0] + [sep] + Join(parts[1..], sep)
  }

  /** String.prototype.split with a one-character separator: the pieces
      between separators, in order, none of them holding the separator. */
  function Split(s: string, sep: char): (parts: seq<string>)
    ensures |parts| >= 1
    ensures forall k :: 0 <= k < |parts| ==> sep !in parts[k]
    ensures Join(parts, sep) == s
    decreases |s|
  {
    if sep !in s then [s]
    else
      var i := IndexOf(s, sep);
      assert s == s[..i] + [sep] + s[i + 1..];
      [s[..i]] + Split(s[i + 1..], sep)
  }

  /** Splitting a string that holds the separator: the text before its
      first occurrence, then the pieces of what follows it. */
  lemma {:induction false} SplitAtFirst(s: string, sep: char)
    requires sep in s
    ensures Split(s, sep) == [s[..IndexOf(s, sep)]] + Split(s[IndexOf(s, sep) + 1..], sep)
  {
  }

  /** The first piece runs from the start of `s` to its first separator, or
      to its end when it has none; there is a second piece exactly when `s`
      holds the separator. */
  lemma {:induction false} SplitHead(s: string, sep: char)
    ensures var p := Split(s, sep)[0];
            |p| <= |s| && s[..|p|] == p && (|p| == |s| || s[|p|] == sep)
    ensures |Split(s, sep)| >= 2 <==> sep in s
  {
  }

  /** Split is the only way of cutting a string at its separators: any list of
      separator-free pieces that joins to `s` is Split(s). */
  lemma {:induction false} SplitUnique(s: string, sep: char, parts: seq<string>)
    requires |parts| >= 1
    requires forall k :: 0 <= k < |parts| ==> sep !in parts[k]
    requires Join(parts, sep) == s
    ensures parts == Split(s, sep)
    decreases |s|
  {
    if |parts| == 1 {
      assert sep !in s;
    } else {
      var rest := Join(parts[1..], sep);
      assert s == parts[0] + [sep] + rest;
      assert s[|parts[0]|] == sep;
      assert s[..|parts[0]|] == parts[0];
      assert sep in s;
      var i := IndexOf(s, sep);
      assert s[i + 1..] == rest;
      SplitUnique(rest, sep, parts[1..]);
    }
  }
}
