/** The token payload generateToken signs, and verifyToken's error mapping.
    Signing and verifying are the JSON Web Token library's and stay
    abstract: `verify` stands for jwt.verify with the configured secret. */
module Jwt {
  import opened Wrappers
  import opened Js

  /** The lifetime a token gets when the caller names none. */
  const DefaultExpiresIn: string := "5h"

  /** The secret used when JWT_SECRET is unset or empty. */
  const FallbackSecret: string := "your_jwt_secret"

  function Secret(env: Bag): (s: string)
    ensures Truthy(Get(env, "JWT_SECRET")) ==> s == env["JWT_SECRET"]
    ensures !Truthy(Get(env, "JWT_SECRET")) ==> s == FallbackSecret
  {
    if Truthy(Get(env, "JWT_SECRET")) then env["JWT_SECRET"] else FallbackSecret
  }

  /** The signed claims. None is a claim left undefined or set to null. */
  datatype Payload = Payload(id: Prop, organizationId: Prop, email: Prop, name: Prop)

  const IdNames: seq<string> := ["_id", "id", "userId", "user_id"]
  const OrgNames: seq<string> := ["organizationId", "orgId", "organization_id", "org"]

  /** generateToken's payload: the first truthy of the id and organization
      fallbacks, email or null, name or userName or null. */
  function BuildPayload(user: Bag): (p: Payload)
    ensures p.id == FirstTruthy(user, IdNames)
    ensures p.organizationId == FirstTruthy(user, OrgNames)
    ensures p.email == (if Truthy(Get(user, "email")) then Get(user, "email") else None)
    ensures Truthy(p.name) <==> Truthy(Get(user, "name")) || Truthy(Get(user, "userName"))
    ensures !Truthy(p.name) ==> p.name == None
    ensures Truthy(Get(user, "name")) ==> p.name == Get(user, "name")
    ensures !Truthy(Get(user, "name")) && Truthy(Get(user, "userName")) ==> p.name == Get(user, "userName")
  {
    Payload(
      FirstTruthy(user, IdNames),
      FirstTruthy(user, OrgNames),
      Or(Get(user, "email"), None),
      Or(Get(user, "name"), Or(Get(user, "userName"), None)))
  }

  /** The claims a token signed over the payload verifies to: the defined,
      non-null fields. */
  function Claims(p: Payload): (c: Bag)
    ensures forall k :: k in c ==> k in {"id", "organizationId", "email", "name"}
    ensures Get(c, "id") == p.id && Get(c, "organizationId") == p.organizationId
    ensures Get(c, "email") == p.email && Get(c, "name") == p.name
  {
    var c0: Bag := map[];
    var c1 := if p.id.Some? then c0["id" := p.id.value] else c0;
    var c2 := if p.organizationId.Some? then c1["organizationId" := p.organizationId.value] else c1;
    var c3 := if p.email.Some? then c2["email" := p.email.value] else c2;
    if p.name.Some? then c3["name" := p.name.value] else c3
  }

  /** What generateToken hands to jwt.sign. */
  datatype SignRequest = SignRequest(payload: Payload, secret: string, expiresIn: string)

  function GenerateToken(user: Bag, expiresIn: Option<string>, env: Bag): (r: SignRequest)
    ensures r.payload == BuildPayload(user) && r.secret == Secret(env)
    ensures expiresIn.None? ==> r.expiresIn == DefaultExpiresIn
    ensures expiresIn.Some? ==> r.expiresIn == expiresIn.value
  {
    SignRequest(BuildPayload(user), Secret(env), if expiresIn.Some? then expiresIn.value else DefaultExpiresIn)
  }

  const InvalidToken: string := "Invalid token"

  /** verifyToken: the claims, or the error "Invalid token" whatever made
      verification fail. */
  function VerifyToken(token: string, verify: string -> Option<Bag>): (r: Result<Bag, string>)
    ensures r.Failure? <==> verify(token).None?
    ensures r.Failure? ==> r.error == InvalidToken
    ensures r.Success? ==> r.value == verify(token).value
  {
    match verify(token)
    case None => Failure(InvalidToken)
    case Some(claims) => Success(claims)
  }

  /** The payload of the token issued at organization creation has no id:
      none of the id fallbacks is among its two fields. */
  lemma {:induction false} OrganizationPayload(orgId: string, email: string)
    ensures BuildPayload(map["organizationId" := orgId, "email" := email]).id.None?
  {
    var user: Bag := map["organizationId" := orgId, "email" := email];
    assert user.Keys == {"organizationId", "email"};
    NoneTruthy(user, IdNames);
  }
}
