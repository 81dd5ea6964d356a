/** The start-up check of the process environment: each variable is
    normalised, checked in a fixed order, and every failed check adds one
    message to the list of errors. The process refuses to start unless the
    list is empty; here the list itself is the result. */
module EnvValidation {
  import opened Wrappers
  import opened Js
  import Text
  import Numbers

  const MongoRequired := "MONGO_URI is required in .env file"
  const MongoInvalid := "MONGO_URI must be a valid MongoDB connection string"
  const PortRequired := "PORT is required in .env file"
  const PortInvalid := "PORT must be a number"
  const SecretRequired := "JWT_SECRET is required in .env file"
  const SecretShort := "JWT_SECRET should be at least 16 characters long"
  const EmailRequired := "ALERT_EMAIL is required in .env file"
  const EmailInvalid := "ALERT_EMAIL must be a valid email address"
  const PassRequired := "ALERT_EMAIL_PASS is required in .env file"
  const PassSpaces := "ALERT_EMAIL_PASS contains spaces \U{2014} wrap it in quotes in .env"
  const AtlasInvalid := "USE_ATLAS_SEARCH must be either true or false"
  const IndexRequired := "ATLAS_SEARCH_INDEX is required when USE_ATLAS_SEARCH is true"

  /** `"` + at least one character + `"`, with no line terminator inside:
      what the pattern ^".+"$ accepts. */
  predicate Quoted(t: string) {
    |t| >= 3 && t[0] == '"' && t[|t| - 1] == '"' && !Text.HasLineTerminator(t[1..|t| - 1])
  }

  /** normalize: a falsy value becomes empty; otherwise the trimmed text,
      without its surrounding pair of double quotes when it is quoted. */
  function Normalize(v: Prop): (r: string)
    ensures !Truthy(v) ==> r == ""
    ensures Truthy(v) && !Quoted(Text.Trim(v.value)) ==> r == Text.Trim(v.value)
    ensures Truthy(v) && Quoted(Text.Trim(v.value)) ==>
              |r| >= 1 && Text.Trim(v.value) == "\"" + r + "\""
  {
    if !Truthy(v) then ""
    else
      var t := Text.Trim(v.value);
      if Quoted(t) then
        assert t == "\"" + t[1..|t| - 1] + "\"";
        t[1..|t| - 1]
      else t
  }

  /** A quoted value loses its quotes, and only them. */
  lemma {:induction false} NormalizeUnquotes(m: string)
    requires m != "" && !Text.HasLineTerminator(m)
    ensures Normalize(Some("\"" + m + "\"")) == m
  {
    var s := "\"" + m + "\"";
    assert !Text.IsSpace(s[0]) && !Text.IsSpace(s[|s| - 1]);
    Text.TrimOfUnpadded(s);
    assert s[1..|s| - 1] == m;
  }

  /** The length of a string in UTF-16 code units, as String.prototype.length
      counts it: two for a character outside the Basic Multilingual Plane. */
  function Utf16Length(s: string): (n: nat)
    ensures |s| <= n <= 2 * |s|
  {
    if s == [] then 0 else (if s[0] as int >= 0x10000 then 2 else 1) + Utf16Length(s[1..])
  }

  /** An address the pattern ^[^\s@]+@[^\s@]+\.[^\s@]+$ accepts: no space,
      one '@' with something before it, and a '.' in the domain that is
      neither its first nor its last character. */
  predicate IsEmail(s: string) {
    && !Text.HasSpace(s)
    && '@' in s
    && var i := Text.IndexOf(s, '@');
       && i > 0
       && '@' !in s[i + 1..]
       && exists j :: i + 1 < j < |s| - 1 && s[j] == '.'
  }

  // The checks, one per variable, each adding at most one message.

  function MongoErrors(uri: string): (r: seq<string>)
    ensures r == [] <==> Text.HasPrefix(uri, "mongodb://") || Text.HasPrefix(uri, "mongodb+srv://")
    ensures r == [MongoRequired] <==> uri == ""
    ensures r == [] || r == [MongoRequired] || r == [MongoInvalid]
  {
    if uri == "" then [MongoRequired]
    else if !Text.HasPrefix(uri, "mongodb://") && !Text.HasPrefix(uri, "mongodb+srv://") then [MongoInvalid]
    else []
  }

  function PortErrors(port: string): (r: seq<string>)
    ensures r == [] <==> port != "" && !Numbers.IsNaNString(port)
    ensures r == [PortRequired] <==> port == ""
    ensures r == [] || r == [PortRequired] || r == [PortInvalid]
  {
    if port == "" then [PortRequired]
    else if Numbers.IsNaNString(port) then [PortInvalid]
    else []
  }

  function SecretErrors(secret: string): (r: seq<string>)
    ensures r == [] <==> Utf16Length(secret) >= 16
    ensures r == [SecretRequired] <==> secret == ""
    ensures r == [] || r == [SecretRequired] || r == [SecretShort]
  {
    if secret == "" then [SecretRequired]
    else if Utf16Length(secret) < 16 then [SecretShort]
    else []
  }

  function EmailErrors(email: string): (r: seq<string>)
    ensures r == [] <==> IsEmail(email)
    ensures r == [EmailRequired] <==> email == ""
    ensures r == [] || r == [EmailRequired] || r == [EmailInvalid]
  {
    if email == "" then [EmailRequired]
    else if !IsEmail(email) then [EmailInvalid]
    else []
  }

  /** The password checks: its absence, and space in it unless the raw value
      is quoted. An empty password has no space, so at most one applies. */
  function PassErrors(pass: string, raw: Prop): (r: seq<string>)
    ensures r == [] <==> pass != "" && (!Text.HasSpace(pass) || (raw.Some? && Quoted(raw.value)))
    ensures r == [PassRequired] <==> pass == ""
    ensures r == [] || r == [PassRequired] || r == [PassSpaces]
  {
    assert PassSpaces[17] != PassRequired[17];
    if pass == "" then [PassRequired]
    else if Text.HasSpace(pass) && !(raw.Some? && Quoted(raw.value)) then [PassSpaces]
    else []
  }

  /** The Atlas Search switch, compared without regard to case. */
  function SwitchErrors(use: string): (r: seq<string>)
    ensures r == [] <==> use == "" || IsBoolean(use)
    ensures r == [] || r == [AtlasInvalid]
  {
    if use != "" && !IsBoolean(use) then [AtlasInvalid] else []
  }

  /** The index the switch needs when it is on. */
  function IndexErrors(use: string, index: string): (r: seq<string>)
    ensures r == [] <==> (IsOn(use) ==> index != "")
    ensures r == [] || r == [IndexRequired]
  {
    if IsOn(use) && index == "" then [IndexRequired] else []
  }

  /** `s.toLowerCase() === word` for a lower-case word. */
  predicate EqualsIgnoringCase(s: string, word: string) {
    |s| == |word| && forall i :: 0 <= i < |s| ==> Text.LowerChar(s[i]) == word[i]
  }

  lemma {:induction false} EqualsIgnoringCaseIsLower(s: string, word: string)
    ensures EqualsIgnoringCase(s, word) <==> Text.Lower(s) == word
  {
    if |s| == |word| && Text.Lower(s) != word {
      var i :| 0 <= i < |s| && Text.Lower(s)[i] != word[i];
    }
  }

  /** "true" in any case. */
  predicate IsOn(use: string) {
    EqualsIgnoringCase(use, "true")
  }

  /** "true" or "false" in any case. */
  predicate IsBoolean(use: string) {
    EqualsIgnoringCase(use, "true") || EqualsIgnoringCase(use, "false")
  }

  /** The variables the checks read, normalised, and the password as
      written in the environment. */
  datatype Settings = Settings(
    uri: string, port: string, secret: string, email: string,
    pass: string, rawPass: Prop, use: string, index: string)

  function Var(env: Bag, name: string): string {
    Normalize(Get(env, name))
  }

  function Read(env: Bag): Settings {
    Settings(Var(env, "MONGO_URI"), Var(env, "PORT"), Var(env, "JWT_SECRET"), Var(env, "ALERT_EMAIL"),
             Var(env, "ALERT_EMAIL_PASS"), Get(env, "ALERT_EMAIL_PASS"),
             Var(env, "USE_ATLAS_SEARCH"), Var(env, "ATLAS_SEARCH_INDEX"))
  }

  /** The messages of the failed checks, in the order of the checks. */
  function SettingsErrors(s: Settings): seq<string> {
    MongoErrors(s.uri)
    + PortErrors(s.port)
    + SecretErrors(s.secret)
    + EmailErrors(s.email)
    + PassErrors(s.pass, s.rawPass)
    + SwitchErrors(s.use)
    + IndexErrors(s.use, s.index)
  }

  function Errors(env: Bag): seq<string> {
    SettingsErrors(Read(env))
  }

  /** What valid settings are, stated directly. */
  predicate Valid(s: Settings) {
    && (Text.HasPrefix(s.uri, "mongodb://") || Text.HasPrefix(s.uri, "mongodb+srv://"))
    && s.port != "" && !Numbers.IsNaNString(s.port)
    && Utf16Length(s.secret) >= 16
    && IsEmail(s.email)
    && s.pass != "" && (!Text.HasSpace(s.pass) || (s.rawPass.Some? && Quoted(s.rawPass.value)))
    && (s.use == "" || IsBoolean(s.use))
    && (IsOn(s.use) ==> s.index != "")
  }

  /** validateEnv: normalises the variables, then checks them. */
  method ValidateEnv(env: Bag) returns (errors: seq<string>)
    ensures errors == Errors(env)
  {
    errors := Check(Read(env));
  }

  /** The checks in order, each pushing its message when it fails. */
  method Check(s: Settings) returns (errors: seq<string>)
    ensures errors == SettingsErrors(s)
  {
    errors := CheckMongo([], s.uri);
    assert errors == MongoErrors(s.uri);
    errors := CheckPort(errors, s.port);
    errors := CheckSecret(errors, s.secret);
    errors := CheckEmail(errors, s.email);
    errors := CheckPass(errors, s.pass, s.rawPass);
    errors := CheckSwitch(errors, s.use);
    errors := CheckIndex(errors, s.use, s.index);
  }

  method CheckMongo(errors: seq<string>, uri: string) returns (r: seq<string>)
    ensures r == errors + MongoErrors(uri)
  {
    r := errors;
    if uri == "" {
      r := r + [MongoRequired];
    } else if !Text.HasPrefix(uri, "mongodb://") && !Text.HasPrefix(uri, "mongodb+srv://") {
      r := r + [MongoInvalid];
    }
  }

  method CheckPort(errors: seq<string>, port: string) returns (r: seq<string>)
    ensures r == errors + PortErrors(port)
  {
    r := errors;
    if port == "" {
      r := r + [PortRequired];
    } else if Numbers.IsNaNString(port) {
      r := r + [PortInvalid];
    }
  }

  method CheckSecret(errors: seq<string>, secret: string) returns (r: seq<string>)
    ensures r == errors + SecretErrors(secret)
  {
    r := errors;
    if secret == "" {
      r := r + [SecretRequired];
    } else if Utf16Length(secret) < 16 {
      r := r + [SecretShort];
    }
  }

  method CheckEmail(errors: seq<string>, email: string) returns (r: seq<string>)
    ensures r == errors + EmailErrors(email)
  {
    r := errors;
    if email == "" {
      r := r + [EmailRequired];
    } else if !IsEmail(email) {
      r := r + [EmailInvalid];
    }
  }

  /** Two separate checks; an empty password has no space, so at most one
      pushes. */
  method CheckPass(errors: seq<string>, pass: string, raw: Prop) returns (r: seq<string>)
    ensures r == errors + PassErrors(pass, raw)
  {
    r := errors;
    if pass == "" {
      r := r + [PassRequired];
    }
    if Text.HasSpace(pass) && !(raw.Some? && Quoted(raw.value)) {
      r := r + [PassSpaces];
    }
  }

  method CheckSwitch(errors: seq<string>, use: string) returns (r: seq<string>)
    ensures r == errors + SwitchErrors(use)
  {
    r := errors;
    if use != "" && !IsBoolean(use) {
      r := r + [AtlasInvalid];
    }
  }

  method CheckIndex(errors: seq<string>, use: string, index: string) returns (r: seq<string>)
    ensures r == errors + IndexErrors(use, index)
  {
    r := errors;
    if IsOn(use) && index == "" {
      r := r + [IndexRequired];
    }
  }

  lemma {:induction false} NoErrorsIffValid(s: Settings)
    ensures SettingsErrors(s) == [] <==> Valid(s)
  {
    var parts := [MongoErrors(s.uri), PortErrors(s.port), SecretErrors(s.secret), EmailErrors(s.email),
                  PassErrors(s.pass, s.rawPass), SwitchErrors(s.use), IndexErrors(s.use, s.index)];
    assert SettingsErrors(s) == parts[0] + parts[1] + parts[2] + parts[3] + parts[4] + parts[5] + parts[6];
  }

  /** Each check adds at most one message: at most seven in all. */
  lemma {:induction false} AtMostOnePerCheck(s: Settings)
    ensures |SettingsErrors(s)| <= 7
  {
    assert |MongoErrors(s.uri)| <= 1 && |PortErrors(s.port)| <= 1 && |SecretErrors(s.secret)| <= 1;
    assert |EmailErrors(s.email)| <= 1 && |PassErrors(s.pass, s.rawPass)| <= 1;
    assert |SwitchErrors(s.use)| <= 1 && |IndexErrors(s.use, s.index)| <= 1;
  }

  /** With every variable missing, the messages come in the order of the
      checks, the Atlas ones absent. */
  lemma {:induction false} EmptyEnvironment()
    ensures Errors(map[]) == [MongoRequired, PortRequired, SecretRequired, EmailRequired, PassRequired]
  {
    var env: Bag := map[];
    assert Var(env, "MONGO_URI") == "" && Var(env, "PORT") == "" && Var(env, "JWT_SECRET") == "";
    assert Var(env, "ALERT_EMAIL") == "" && Var(env, "ALERT_EMAIL_PASS") == "";
    assert Var(env, "USE_ATLAS_SEARCH") == "" && Var(env, "ATLAS_SEARCH_INDEX") == "";
    assert !Text.HasSpace("");
  }

  /** The length rule counts UTF-16 units: eight characters outside the
      Basic Multilingual Plane are a long enough secret. */
  lemma {:induction false} AstralSecretLength(s: string)
    requires forall i :: 0 <= i < |s| ==> s[i] as int >= 0x10000
    ensures Utf16Length(s) == 2 * |s|
  {
    if s != [] {
      AstralSecretLength(s[1..]);
    }
  }

  /** A password with spaces is accepted when quoted in the file, and the
      quotes are not part of it. */
  lemma {:induction false} QuotedPasswordAccepted(m: string)
    requires m != "" && !Text.HasLineTerminator(m)
    ensures var raw := "\"" + m + "\"";
            Normalize(Some(raw)) == m && PassErrors(m, Some(raw)) == []
  {
    NormalizeUnquotes(m);
  }
}
