/**
 * `authMiddleware` (src/middleware/auth.middleware.js): where the token comes from,
 * how each failure becomes a 401, and the `req.user` it attaches before calling `next`.
 */
module AuthMiddleware {
  import opened Wrappers
  import opened JsString
  import opened Jwt

  /** `req.user`; `id` is the `_id` field. */
  datatype ReqUser = ReqUser(id: Option<string>, role: Option<string>, email: Option<string>)

  datatype Outcome = Next(user: ReqUser) | Reject(status: int, message: string)

  /** `req.cookies?.token || req.headers.authorization?.split(" ")[1]` */
  function SelectToken(cookie: Option<string>, authorization: Option<string>): Option<string> {
    if Truthy(cookie) then cookie
    else match authorization
      case None => None
      case Some(h) => SplitAt(h, ' ', 1)
  }

  /** `req.user` as built from verified claims: `id || _id`, `role`, `email`. */
  function UserOf(d: Claims): ReqUser {
    ReqUser(Or(d.id, d.mongoId), d.role, d.email)
  }

  /** The middleware's decision; `secret` is `process.env.JWT_SECRET`. */
  function Authenticate(cookie: Option<string>, authorization: Option<string>, secret: Option<string>, signer: Signer): (r: Outcome)
    ensures !Truthy(SelectToken(cookie, authorization)) ==> r == Reject(401, "Unauthorized")
    ensures Truthy(SelectToken(cookie, authorization)) && signer.verify(SelectToken(cookie, authorization).value, secret).None?
      ==> r == Reject(401, "Invalid token")
    ensures r.Next? ==> Truthy(r.user.id)
    ensures r.Reject? ==> r.status == 401
  {
    var token := SelectToken(cookie, authorization);
    if !Truthy(token) then Reject(401, "Unauthorized")
    else match signer.verify(token.value, secret)
      case None => Reject(401, "Invalid token")
      case Some(d) => if Truthy(UserOf(d).id) then Next(UserOf(d)) else Reject(401, "Invalid token payload")
  }

  // ---------------------------------------------------------------------------
  // where the token comes from

  /** A non-empty cookie wins over any Authorization header. */
  lemma CookieTakesPrecedence(cookie: Option<string>, authorization: Option<string>)
    requires Truthy(cookie)
    ensures SelectToken(cookie, authorization) == cookie
  {
  }

  /** Without a cookie, the token is the word after `Bearer `. */
  lemma BearerHeaderToken(cookie: Option<string>, scheme: string, token: string)
    requires !Truthy(cookie)
    requires ' ' !in scheme && ' ' !in token
    ensures SelectToken(cookie, Some(scheme + " " + token)) == Some(token)
  {
    SplitAfterWord(scheme, token, ' ');
    SplitWithoutSeparator(token, ' ');
    assert scheme + " " + token == scheme + [' '] + token;
  }

  /** A header with a single word yields no token, so the request is refused as unauthorized. */
  lemma SingleWordHeaderRefused(cookie: Option<string>, word: string, secret: Option<string>, signer: Signer)
    requires !Truthy(cookie) && ' ' !in word
    ensures Authenticate(cookie, Some(word), secret, signer) == Reject(401, "Unauthorized")
  {
    SplitWithoutSeparator(word, ' ');
  }

  // ---------------------------------------------------------------------------
  // what a verified token gives

  /** `id` falls back to `_id`; with neither, the payload is refused. */
  lemma ClaimFallback(cookie: Option<string>, authorization: Option<string>, secret: Option<string>, signer: Signer, d: Claims)
    requires Truthy(SelectToken(cookie, authorization))
    requires signer.verify(SelectToken(cookie, authorization).value, secret) == Some(d)
    ensures Truthy(d.id) ==> Authenticate(cookie, authorization, secret, signer) == Next(ReqUser(d.id, d.role, d.email))
    ensures !Truthy(d.id) && Truthy(d.mongoId) ==> Authenticate(cookie, authorization, secret, signer) == Next(ReqUser(d.mongoId, d.role, d.email))
    ensures !Truthy(d.id) && !Truthy(d.mongoId) ==> Authenticate(cookie, authorization, secret, signer) == Reject(401, "Invalid token payload")
  {
  }

  /**
   * A token issued by `generateToken` and carried in the cookie gets the request through,
   * with the same id and role, and no email.
   */
  lemma IssuedTokenAuthenticates(env: Env, signer: Signer, p: Payload, authorization: Option<string>)
    requires Sound(signer)
    requires GenerateToken(env, signer, p).Token?
    requires Truthy(ClaimsOf(p).id)
    ensures Authenticate(Some(GenerateToken(env, signer, p).token), authorization, env.jwtSecret, signer)
      == Next(ReqUser(ClaimsOf(p).id, p.role, None))
  {
    IssuedTokenVerifies(env, signer, p);
  }

  /** The same holds when the issued token is sent as `Authorization: Bearer <token>`. */
  lemma IssuedBearerTokenAuthenticates(env: Env, signer: Signer, p: Payload)
    requires Sound(signer)
    requires GenerateToken(env, signer, p).Token?
    requires Truthy(ClaimsOf(p).id)
    ensures Authenticate(None, Some("Bearer " + GenerateToken(env, signer, p).token), env.jwtSecret, signer)
      == Next(ReqUser(ClaimsOf(p).id, p.role, None))
  {
    var t := GenerateToken(env, signer, p).token;
    IssuedTokenVerifies(env, signer, p);
    BearerHeaderToken(None, "Bearer", t);
    assert "Bearer" + " " + t == "Bearer " + t;
  }

  /** Tokens from `generateToken` never carry an email, so `req.user.email` is always absent. */
  lemma IssuedTokenHasNoEmail(env: Env, signer: Signer, p: Payload, authorization: Option<string>)
    requires Sound(signer)
    requires GenerateToken(env, signer, p).Token?
    ensures var o := Authenticate(Some(GenerateToken(env, signer, p).token), authorization, env.jwtSecret, signer);
      o.Next? ==> o.user.email.None?
  {
    IssuedTokenVerifies(env, signer, p);
  }

  // ---------------------------------------------------------------------------
  // the request object

  /** The parts of the Express request and response the middleware touches. */
  class Request {
    const cookieToken: Option<string>
    const authorization: Option<string>
    var user: Option<ReqUser>
    var response: Option<(int, string)>
    var nextCalls: nat

    constructor (cookieToken: Option<string>, authorization: Option<string>)
      ensures this.cookieToken == cookieToken && this.authorization == authorization
      ensures user.None? && response.None? && nextCalls == 0
    {
      this.cookieToken := cookieToken;
      this.authorization := authorization;
      user := None;
      response := None;
      nextCalls := 0;
    }
  }

  /**
   * Runs the middleware on `req`. `req.user` is assigned as soon as the token verifies,
   * also when its payload is then refused; `next` is called once on success and never
   * on failure, when the 401 response is written instead.
   */
  method Run(req: Request, secret: Option<string>, signer: Signer)
    modifies req
    ensures var o := Authenticate(req.cookieToken, req.authorization, secret, signer);
      && (o.Next? ==> req.user == Some(o.user) && req.response == old(req.response) && req.nextCalls == old(req.nextCalls) + 1)
      && (o.Reject? ==> req.response == Some((o.status, o.message)) && req.nextCalls == old(req.nextCalls))
    ensures var token := SelectToken(req.cookieToken, req.authorization);
      req.user == (if Truthy(token) && signer.verify(token.value, secret).Some?
                   then Some(UserOf(signer.verify(token.value, secret).value))
                   else old(req.user))
  {
    var token := SelectToken(req.cookieToken, req.authorization);
    if !Truthy(token) {
      req.response := Some((401, "Unauthorized"));
      return;
    }
    var decoded := signer.verify(token.value, secret);
    if decoded.None? {
      req.response := Some((401, "Invalid token"));
      return;
    }
    req.user := Some(UserOf(decoded.value));
    if !Truthy(req.user.value.id) {
      req.response := Some((401, "Invalid token payload"));
      return;
    }
    req.nextCalls := req.nextCalls + 1;
  }
}
