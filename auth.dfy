/** The bearer-token middleware: it reads the token, verifies it, and
    normalises its claims into the request's user. */
module AuthMiddleware {
  import opened Wrappers
  import opened Js
  import Text
  import Jwt

  /** req.user: exactly these three fields; every other claim is dropped. */
  datatype ReqUser = ReqUser(id: string, organizationId: string, email: Prop)

  /** The middleware's outcome: next() with the user, or a response. */
  datatype Outcome = Next(user: ReqUser) | Respond(status: int, message: string)

  const NoToken: string := "No token provided"
  const BadToken: string := "Invalid or expired token"
  const MissingIds: string := "Invalid token payload: userId/organizationId missing"

  /** `authorization?.split(" ")[1]`: the second space-separated piece of the
      header, undefined when the header or the piece is missing. */
  function BearerToken(header: Prop): (t: Prop)
    ensures header.None? ==> t.None?
    ensures t.Some? <==> header.Some? && ' ' in header.value
    ensures t.Some? ==> ' ' !in t.value
    ensures t.Some? ==> TokenAfterFirstSpace(header.value, t.value)
  {
    if header.None? then None
    else
      var parts := Text.Split(header.value, ' ');
      Text.SplitHead(header.value, ' ');
      if |parts| >= 2 then
        SecondPiece(header.value);
        Some(parts[1])
      else None
  }

  /** `token` is what follows the first space of `h`, up to the next space
      or the end. */
  predicate TokenAfterFirstSpace(h: string, token: string)
    requires ' ' in h
  {
    var start := Text.IndexOf(h, ' ') + 1;
    start + |token| <= |h| && h[start..start + |token|] == token
    && (start + |token| == |h| || h[start + |token|] == ' ')
  }

  /** The second piece of a split at spaces is what follows the first
      space, up to the next one. */
  lemma {:induction false} SecondPiece(h: string)
    requires ' ' in h
    ensures |Text.Split(h, ' ')| >= 2
    ensures TokenAfterFirstSpace(h, Text.Split(h, ' ')[1])
  {
    var i := Text.IndexOf(h, ' ');
    var rest := h[i + 1..];
    Text.SplitAtFirst(h, ' ');
    var p := Text.Split(rest, ' ')[0];
    assert Text.Split(h, ' ')[1] == p;
    Text.SplitHead(rest, ' ');
    PieceAfter(h, p);
  }

  /** A piece at the head of the text after the first space, followed there
      by the end or a space, is the token after the first space. */
  lemma {:induction false} PieceAfter(h: string, p: string)
    requires ' ' in h
    requires var rest := h[Text.IndexOf(h, ' ') + 1..];
             |p| <= |rest| && rest[..|p|] == p && (|p| == |rest| || rest[|p|] == ' ')
    ensures TokenAfterFirstSpace(h, p)
  {
    var i := Text.IndexOf(h, ' ');
    assert h[i + 1..][..|p|] == h[i + 1..i + 1 + |p|];
  }

  const IdClaims: seq<string> := ["id", "_id", "userId", "user_id"]
  const OrgClaims: seq<string> := ["organizationId", "orgId", "organization_id", "org", "_id"]

  /** The claims the user is made of, before the presence check. */
  datatype Normalized = Normalized(id: Prop, organizationId: Prop, email: Prop)

  function Normalize(claims: Bag): (n: Normalized)
    ensures n.id == FirstTruthy(claims, IdClaims)
    ensures n.organizationId == FirstTruthy(claims, OrgClaims)
    ensures n.email == Get(claims, "email")
  {
    Normalized(FirstTruthy(claims, IdClaims), FirstTruthy(claims, OrgClaims), Get(claims, "email"))
  }

  /** The auth middleware. A missing token is refused before verification;
      a verification failure of any kind is 401; claims lacking a truthy id
      or organization are 400. */
  function Auth(header: Prop, verify: string -> Option<Bag>): (r: Outcome)
    ensures !Truthy(BearerToken(header)) ==> r == Respond(401, NoToken)
    ensures (Truthy(BearerToken(header)) && verify(BearerToken(header).value).None?)
              ==> r == Respond(401, BadToken)
    ensures r.Next? <==>
      Truthy(BearerToken(header)) && verify(BearerToken(header).value).Some?
      && var n := Normalize(verify(BearerToken(header).value).value);
         Truthy(n.id) && Truthy(n.organizationId)
    ensures r.Next? ==>
      var n := Normalize(verify(BearerToken(header).value).value);
      r.user == ReqUser(n.id.value, n.organizationId.value, n.email)
  {
    var token := BearerToken(header);
    if !Truthy(token) then Respond(401, NoToken)
    else
      match Jwt.VerifyToken(token.value, verify)
      case Failure(_) => Respond(401, BadToken)
      case Success(claims) =>
        var n := Normalize(claims);
        if !Truthy(n.id) || !Truthy(n.organizationId) then Respond(400, MissingIds)
        else Next(ReqUser(n.id.value, n.organizationId.value, n.email))
  }

  /** "Bearer <token>" yields the token, for any token without a space. */
  lemma {:induction false} BearerOfHeader(scheme: string, token: string)
    requires ' ' !in scheme && ' ' !in token
    ensures BearerToken(Some(scheme + " " + token)) == Some(token)
  {
    var parts := [scheme, token];
    assert Text.Join(parts, ' ') == scheme + " " + token;
    Text.SplitUnique(scheme + " " + token, ' ', parts);
  }

  /** A header with no space in it carries no token. */
  lemma {:induction false} NoSpaceNoToken(header: string)
    requires ' ' !in header
    ensures Auth(Some(header), (t: string) => None) == Respond(401, NoToken)
  {
    Text.SplitUnique(header, ' ', [header]);
  }

  /** Verified claims without a truthy id (or organization) give 400 and
      never reach next(). */
  lemma {:induction false} MissingIdRejected(header: Prop, verify: string -> Option<Bag>)
    requires Truthy(BearerToken(header)) && verify(BearerToken(header).value).Some?
    requires var n := Normalize(verify(BearerToken(header).value).value);
             !Truthy(n.id) || !Truthy(n.organizationId)
    ensures Auth(header, verify) == Respond(400, MissingIds)
  {
  }

  /** A token generateToken signed for a user with a truthy id and
      organization authenticates as that id and organization, with the
      payload's email. */
  lemma {:induction false} GeneratedTokenAccepted(user: Bag, header: Prop, verify: string -> Option<Bag>)
    requires var p := Jwt.BuildPayload(user); Truthy(p.id) && Truthy(p.organizationId)
    requires Truthy(BearerToken(header))
    requires verify(BearerToken(header).value) == Some(Jwt.Claims(Jwt.BuildPayload(user)))
    ensures var p := Jwt.BuildPayload(user);
            Auth(header, verify) == Next(ReqUser(p.id.value, p.organizationId.value, p.email))
  {
    var p := Jwt.BuildPayload(user);
    var c := Jwt.Claims(p);
    FirstTruthyPicksFirst(c, IdClaims, 0);
    FirstTruthyPicksFirst(c, OrgClaims, 0);
  }

  /** The token issued when an organization is created carries only
      organizationId and email, so it has no id claim and is refused. */
  lemma {:induction false} OrganizationTokenRefused(orgId: string, email: string, header: Prop, verify: string -> Option<Bag>)
    requires Truthy(BearerToken(header))
    requires verify(BearerToken(header).value)
             == Some(Jwt.Claims(Jwt.BuildPayload(map["organizationId" := orgId, "email" := email])))
    ensures Auth(header, verify) == Respond(400, MissingIds)
  {
    Jwt.OrganizationPayload(orgId, email);
    ClaimsWithoutId(Jwt.BuildPayload(map["organizationId" := orgId, "email" := email]));
  }

  /** Claims signed from a payload without an id give no id. */
  lemma {:induction false} ClaimsWithoutId(p: Jwt.Payload)
    requires p.id.None?
    ensures !Truthy(Normalize(Jwt.Claims(p)).id)
  {
    var c := Jwt.Claims(p);
    assert "_id" !in c && "userId" !in c && "user_id" !in c;
    NoneTruthy(c, IdClaims);
  }

  /** A bare `_id` claim serves as both the id and the organization. */
  lemma {:induction false} UnderscoreIdServesBoth(claims: Bag)
    requires Truthy(Get(claims, "_id"))
    requires forall k :: k in claims ==> k == "_id"
    ensures Normalize(claims).id == Get(claims, "_id")
    ensures Normalize(claims).organizationId == Get(claims, "_id")
  {
    FirstTruthyPicksFirst(claims, IdClaims, 1);
    FirstTruthyPicksFirst(claims, OrgClaims, 4);
  }
}
