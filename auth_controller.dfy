/**
 * `signup`, `login`, `getMe` and `logout` (src/controllers/auth.controller.js) over a
 * user collection. Password hashing is bcrypt's and stays abstract (`PasswordScheme`);
 * the model assumes only that a password matches its own hash.
 */
module AuthController {
  import opened Wrappers
  import opened JsString
  import opened Collections
  import opened Http
  import opened Jwt
  import AuthMiddleware

  datatype Account = Account(
    id: string,
    name: string,
    email: string,
    passwordHash: string,
    role: Option<string>)

  /** What responses show of an account: never the hash. */
  datatype PublicUser = PublicUser(id: string, name: string, email: string, role: Option<string>)

  function Public(a: Account): PublicUser {
    PublicUser(a.id, a.name, a.email, a.role)
  }

  datatype PasswordScheme = PasswordScheme(hash: string -> string, compare: (string, string) -> bool)

  /** `bcrypt.compare(p, bcrypt.hash(p))` holds. */
  ghost predicate SoundScheme(s: PasswordScheme) {
    forall p :: s.compare(p, s.hash(p))
  }

  /** The response of a successful signup or login: the session cookie and the public user. */
  datatype Session = Session(cookie: Cookie, user: PublicUser)

  function SessionCookie(token: string, production: bool): Cookie {
    Cookie("token", token, true, production, "lax", None)
  }

  function IndexByEmail(users: seq<Account>, email: string): Option<nat> {
    FirstIndex(users, (a: Account) => a.email == email)
  }

  function IndexById(users: seq<Account>, id: string): Option<nat> {
    FirstIndex(users, (a: Account) => a.id == id)
  }

  ghost predicate UniqueEmails(users: seq<Account>) {
    forall i, j :: 0 <= i < j < |users| ==> users[i].email != users[j].email
  }

  ghost predicate UniqueIds(users: seq<Account>) {
    forall i, j :: 0 <= i < j < |users| ==> users[i].id != users[j].id
  }

  /** `generateToken({ id: user._id, role: user.role })`, then the cookie and the body. */
  function Issue(a: Account, status: int, env: Env, signer: Signer, production: bool): (r: Reply<Session>)
    ensures r.Ok? <==> GenerateToken(env, signer, Payload(Some(a.id), None, a.role)).Token?
    ensures r.Ok? ==>
              r.status == status && r.body.user == Public(a)
              && r.body.cookie == SessionCookie(GenerateToken(env, signer, Payload(Some(a.id), None, a.role)).token, production)
    ensures !r.Ok? ==> r.Thrown?
  {
    match GenerateToken(env, signer, Payload(Some(a.id), None, a.role))
    case Refused(e) => Thrown(ErrorMessage(e))
    case Token(t) => Ok(status, Session(SessionCookie(t, production), Public(a)))
  }

  /** `login`: the two credential failures are indistinguishable. */
  function Login(users: seq<Account>, email: Option<string>, password: Option<string>,
                 scheme: PasswordScheme, env: Env, signer: Signer, production: bool): (r: Reply<Session>)
    ensures !Truthy(email) || !Truthy(password) ==> r == Fail(400, "Email and password required")
    ensures r.Fail? ==> r == Fail(400, "Email and password required") || r == Fail(401, "Invalid credentials")
    ensures r.Ok? ==>
      && Truthy(email) && Truthy(password) && IndexByEmail(users, email.value).Some?
      && var a := users[IndexByEmail(users, email.value).value];
      && a.email == email.value && scheme.compare(password.value, a.passwordHash)
      && r.status == 200 && r.body.user == Public(a)
    ensures Truthy(email) && Truthy(password) && IndexByEmail(users, email.value).None?
      ==> r == Fail(401, "Invalid credentials")
    ensures Truthy(email) && Truthy(password) && IndexByEmail(users, email.value).Some? ==>
              var a := users[IndexByEmail(users, email.value).value];
              && (!scheme.compare(password.value, a.passwordHash) ==> r == Fail(401, "Invalid credentials"))
              && (scheme.compare(password.value, a.passwordHash) ==> r == Issue(a, 200, env, signer, production))
  {
    if !Truthy(email) || !Truthy(password) then Fail(400, "Email and password required")
    else match IndexByEmail(users, email.value)
      case None => Fail(401, "Invalid credentials")
      case Some(i) =>
        if !scheme.compare(password.value, users[i].passwordHash) then Fail(401, "Invalid credentials")
        else Issue(users[i], 200, env, signer, production)
  }

  /** `getMe`: the authenticated user's account without its hash. */
  function GetMe(users: seq<Account>, user: AuthMiddleware.ReqUser): (r: Reply<PublicUser>)
    ensures user.id.None? || IndexById(users, user.id.value).None? ==> r == Fail(404, "User not found")
    ensures user.id.Some? && IndexById(users, user.id.value).Some? ==>
              r == Ok(200, Public(users[IndexById(users, user.id.value).value]))
    ensures r.Ok? ==> r.status == 200 && exists i :: 0 <= i < |users| && users[i].id == user.id.value && r.body == Public(users[i])
  {
    if user.id.None? then Fail(404, "User not found")
    else match IndexById(users, user.id.value)
      case None => Fail(404, "User not found")
      case Some(i) => Ok(200, Public(users[i]))
  }

  datatype LogoutReply = LogoutReply(cookie: Cookie, status: int, message: string)

  /** `logout`: overwrite the cookie with an empty, already expired one. Takes no store. */
  function Logout(production: bool): (r: LogoutReply)
    ensures r.cookie.name == "token" && r.cookie.value == "" && r.cookie.expires == Some(0)
    ensures r.status == 200
  {
    LogoutReply(Cookie("token", "", true, production, "lax", Some(0)), 200, "Logged out successfully")
  }

  /** The user collection. The role a new account gets is the User model's default, which is not part of this model. */
  class UserStore {
    var accounts: seq<Account>
    const defaultRole: Option<string>

    ghost predicate Valid()
      reads this
    {
      && UniqueEmails(accounts)
      && UniqueIds(accounts)
      && forall i :: 0 <= i < |accounts| ==> accounts[i].id != ""
    }

    constructor (defaultRole: Option<string>)
      ensures Valid() && accounts == [] && this.defaultRole == defaultRole
    {
      accounts := [];
      this.defaultRole := defaultRole;
    }

    /**
     * `signup`. `newId` is the id the database assigns. The account is stored before the
     * token is issued, so a missing JWT setting fails the request but keeps the account.
     */
    method Signup(name: Option<string>, email: Option<string>, password: Option<string>, newId: string,
                  scheme: PasswordScheme, env: Env, signer: Signer, production: bool) returns (r: Reply<Session>)
      requires Valid()
      requires newId != "" && IndexById(accounts, newId).None?
      modifies this
      ensures Valid()
      ensures !(Truthy(name) && Truthy(email) && Truthy(password)) ==>
        r == Fail(400, "Name, email and password are required") && accounts == old(accounts)
      ensures Truthy(name) && Truthy(email) && Truthy(password) && IndexByEmail(old(accounts), email.value).Some? ==>
        r == Fail(400, "User already exists") && accounts == old(accounts)
      ensures Truthy(name) && Truthy(email) && Truthy(password) && IndexByEmail(old(accounts), email.value).None? ==>
        var a := Account(newId, name.value, email.value, scheme.hash(password.value), defaultRole);
        accounts == old(accounts) + [a] && r == Issue(a, 201, env, signer, production)
    {
      if !Truthy(name) || !Truthy(email) || !Truthy(password) {
        return Fail(400, "Name, email and password are required");
      }
      if IndexByEmail(accounts, email.value).Some? {
        return Fail(400, "User already exists");
      }
      var passwordHash := scheme.hash(password.value);
      var a := Account(newId, name.value, email.value, passwordHash, defaultRole);
      AppendKeepsUnique(accounts, a);
      accounts := accounts + [a];
      r := Issue(a, 201, env, signer, production);
    }
  }

  // ---------------------------------------------------------------------------
  // properties

  /** Adding an account whose email and id are new keeps both unique. */
  lemma AppendKeepsUnique(users: seq<Account>, a: Account)
    requires UniqueEmails(users) && UniqueIds(users)
    requires IndexByEmail(users, a.email).None? && IndexById(users, a.id).None?
    ensures UniqueEmails(users + [a]) && UniqueIds(users + [a])
  {
    assert forall i :: 0 <= i < |users| ==> users[i].email != a.email && users[i].id != a.id;
  }

  /** Unknown email and wrong password give the very same reply. */
  lemma FailedLoginsLookAlike(users: seq<Account>, email: string, password: string,
                              scheme: PasswordScheme, env: Env, signer: Signer, production: bool)
    requires email != "" && password != ""
    requires IndexByEmail(users, email).None? ||
             !scheme.compare(password, users[IndexByEmail(users, email).value].passwordHash)
    ensures Login(users, Some(email), Some(password), scheme, env, signer, production) == Fail(401, "Invalid credentials")
  {
  }

  /** The account found by email is the only one with that email. */
  lemma {:induction false} IndexByEmailAppend(users: seq<Account>, a: Account)
    requires IndexByEmail(users, a.email).None?
    ensures IndexByEmail(users + [a], a.email) == Some(|users|)
  {
    var s := users + [a];
    assert forall j :: 0 <= j < |users| ==> s[j].email != a.email;
    assert s[|users|] == a;
  }

  /** Signing up and then logging in with the same password issues a session for the new account. */
  lemma LoginAfterSignup(users: seq<Account>, a: Account, password: string,
                         scheme: PasswordScheme, env: Env, signer: Signer, production: bool)
    requires SoundScheme(scheme)
    requires IndexByEmail(users, a.email).None?
    requires a.email != "" && password != "" && a.passwordHash == scheme.hash(password)
    ensures Login(users + [a], Some(a.email), Some(password), scheme, env, signer, production)
      == Issue(a, 200, env, signer, production)
  {
    IndexByEmailAppend(users, a);
    assert scheme.compare(password, scheme.hash(password));
  }

  /** A session's cookie authenticates later requests as the account, with its role. */
  lemma SessionCookieAuthenticates(a: Account, status: int, env: Env, signer: Signer, production: bool,
                                   authorization: Option<string>)
    requires Jwt.Sound(signer)
    requires a.id != ""
    requires Issue(a, status, env, signer, production).Ok?
    ensures var s := Issue(a, status, env, signer, production).body;
      && s.user == Public(a)
      && AuthMiddleware.Authenticate(Some(s.cookie.value), authorization, env.jwtSecret, signer)
         == AuthMiddleware.Next(AuthMiddleware.ReqUser(Some(a.id), a.role, None))
  {
    var p := Payload(Some(a.id), None, a.role);
    AuthMiddleware.IssuedTokenAuthenticates(env, signer, p, authorization);
  }

  /** With ids unique, `getMe` for a `req.user` carrying an account's id gives that account, whatever its role and email. */
  lemma GetMeFindsAccount(users: seq<Account>, i: nat, user: AuthMiddleware.ReqUser)
    requires UniqueIds(users) && i < |users|
    requires user.id == Some(users[i].id)
    ensures GetMe(users, user) == Ok(200, Public(users[i]))
  {
    var k := IndexById(users, users[i].id);
    assert k.Some?;
  }

  /** A stored account's session cookie, sent to `/me`, passes the middleware and returns that account. */
  lemma MeAfterSession(users: seq<Account>, i: nat, status: int, env: Env, signer: Signer, production: bool,
                       authorization: Option<string>)
    requires Jwt.Sound(signer)
    requires UniqueIds(users) && i < |users| && users[i].id != ""
    requires Issue(users[i], status, env, signer, production).Ok?
    ensures var cookie := Issue(users[i], status, env, signer, production).body.cookie.value;
      var outcome := AuthMiddleware.Authenticate(Some(cookie), authorization, env.jwtSecret, signer);
      outcome.Next? && GetMe(users, outcome.user) == Ok(200, Public(users[i]))
  {
    SessionCookieAuthenticates(users[i], status, env, signer, production, authorization);
    GetMeFindsAccount(users, i, AuthMiddleware.ReqUser(Some(users[i].id), users[i].role, None));
  }

  /** After logout the browser holds an empty cookie, which the middleware refuses like no credential. */
  lemma LogoutCookieIsNoCredential(production: bool, secret: Option<string>, signer: Signer)
    ensures AuthMiddleware.Authenticate(Some(Logout(production).cookie.value), None, secret, signer)
      == AuthMiddleware.Reject(401, "Unauthorized")
  {
  }
}
