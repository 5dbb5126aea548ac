/**
 * Token issuing (src/utils/jwt.js). Signing and verifying are the jsonwebtoken
 * library's and stay abstract: a `Signer` is a pair of functions, and `Sound`
 * states what the model assumes of them — a token signed with HS256 (section 3.2
 * of RFC 7518) under a secret verifies under the same secret to the claims that
 * were signed, while it has not expired, and is a JWS compact serialization
 * (section 7.1 of RFC 7515), so non-empty and free of spaces.
 */
module Jwt {
  import opened Wrappers
  import opened JsString

  /** The claims the middleware reads from a verified token; `mongoId` is the `_id` claim. */
  datatype Claims = Claims(
    id: Option<string>,
    mongoId: Option<string>,
    role: Option<string>,
    email: Option<string>)

  datatype SignOptions = SignOptions(secret: string, expiresIn: string, algorithm: string)

  datatype Signer = Signer(
    sign: (Claims, SignOptions) -> string,
    verify: (string, Option<string>) -> Option<Claims>)

  /** A JWS compact serialization: base64url segments joined by dots. */
  predicate CompactToken(t: string) {
    t != "" && ' ' !in t
  }

  ghost predicate Sound(s: Signer) {
    forall c: Claims, o: SignOptions :: o.algorithm == "HS256" && o.secret != "" ==>
      CompactToken(s.sign(c, o)) && s.verify(s.sign(c, o), Some(o.secret)) == Some(c)
  }

  /** The process environment `generateToken` reads. */
  datatype Env = Env(jwtSecret: Option<string>, jwtExpiresIn: Option<string>)

  /** The argument of `generateToken`: a user's `id` or `_id`, and role. */
  datatype Payload = Payload(id: Option<string>, mongoId: Option<string>, role: Option<string>)

  /** The signed claims: `id` falls back to `_id`, and nothing else (no email) is embedded. */
  function ClaimsOf(p: Payload): (c: Claims)
    ensures c.id == (if Truthy(p.id) then p.id else p.mongoId)
    ensures c.role == p.role
    ensures c.mongoId.None? && c.email.None?
  {
    Claims(Or(p.id, p.mongoId), None, p.role, None)
  }

  datatype TokenError = SecretMissing | ExpiryMissing

  function ErrorMessage(e: TokenError): string {
    match e
    case SecretMissing => "JWT_SECRET is not defined"
    case ExpiryMissing => "JWT_EXPIRES_IN is not defined"
  }

  datatype Issued = Token(token: string) | Refused(error: TokenError)

  /** `generateToken(payload)` */
  function GenerateToken(env: Env, signer: Signer, p: Payload): (r: Issued)
    ensures !Truthy(env.jwtSecret) ==> r == Refused(SecretMissing)
    ensures Truthy(env.jwtSecret) && !Truthy(env.jwtExpiresIn) ==> r == Refused(ExpiryMissing)
    ensures r.Token? <==> Truthy(env.jwtSecret) && Truthy(env.jwtExpiresIn)
  {
    if !Truthy(env.jwtSecret) then Refused(SecretMissing)
    else if !Truthy(env.jwtExpiresIn) then Refused(ExpiryMissing)
    else Token(signer.sign(ClaimsOf(p), SignOptions(env.jwtSecret.value, env.jwtExpiresIn.value, "HS256")))
  }

  /** An issued token is signed with HS256 under the configured secret and expiry. */
  lemma IssuedWithConfiguredOptions(env: Env, signer: Signer, p: Payload)
    requires GenerateToken(env, signer, p).Token?
    ensures GenerateToken(env, signer, p).token
      == signer.sign(ClaimsOf(p), SignOptions(env.jwtSecret.value, env.jwtExpiresIn.value, "HS256"))
  {
  }

  /** An issued token verifies, under the same secret, to exactly `{id, role}`. */
  lemma IssuedTokenVerifies(env: Env, signer: Signer, p: Payload)
    requires Sound(signer)
    requires GenerateToken(env, signer, p).Token?
    ensures CompactToken(GenerateToken(env, signer, p).token)
    ensures signer.verify(GenerateToken(env, signer, p).token, env.jwtSecret) == Some(ClaimsOf(p))
  {
    var o := SignOptions(env.jwtSecret.value, env.jwtExpiresIn.value, "HS256");
    assert o.algorithm == "HS256" && o.secret != "";
    assert CompactToken(signer.sign(ClaimsOf(p), o)) && signer.verify(signer.sign(ClaimsOf(p), o), Some(o.secret)) == Some(ClaimsOf(p));
  }
}
