/**
 * Session resolution (src/lib/auth.ts): a signed token in the
 * `angora_session` cookie names a user id as its subject; every request
 * re-reads that user's row, and only the row is trusted.
 *
 * jose's HS256 `SignJWT`/`jwtVerify` are foreign code: they are the
 * `sign`/`verify` functions of a `Jose` value, and `Sound` states the
 * contract the lemmas rely on.
 */
module Auth {
  import opened Wrappers
  import opened Text
  import opened JsValues
  import opened Tables

  const CookieName: string := "angora_session"

  /** jose's `setExpirationTime("7d")`, in seconds. */
  const TokenLifetime: int := 7 * 86400

  /** The identity handed to the routes (`SessionUser`). */
  datatype SessionUser = SessionUser(id: int, email: string, fullName: string, role: Role)

  /** The user object register and login answer with and sign (login copies a NULL role as is). */
  datatype PublicUser = PublicUser(id: int, email: string, fullName: string, role: Option<Role>)

  /** The claims of a session token. */
  datatype Payload = Payload(sub: Option<string>, email: string, fullName: string, role: Option<Role>)

  /**
   * `sign(key, payload, exp)` is the compact JWT; `verify(key, token, now)`
   * is the payload `jwtVerify` returns, or None where it throws (bad
   * signature, malformed token, `exp` reached).
   */
  datatype Jose = Jose(sign: (string, Payload, int) -> string, verify: (string, string, int) -> Option<Payload>)

  /** jose's promise: a signed token is never empty and verifies under its key to its payload until it expires. */
  ghost predicate Sound(jose: Jose) {
    && (forall key, p, exp :: jose.sign(key, p, exp) != "")
    && (forall key, p, exp, now ::
          jose.verify(key, jose.sign(key, p, exp), now) == if now < exp then Some(p) else None)
  }

  /** The environment variables the core reads: `AUTH_SECRET` and `NODE_ENV`. */
  datatype Env = Env(authSecret: Option<string>, nodeEnv: Option<string>)

  /**
   * One request as a handler sees it: the crypto, the environment, the
   * session cookie, the clock (seconds), and whether the database throws
   * on every query (with the driver's message).
   */
  datatype Context = Context(jose: Jose, env: Env, cookie: Option<string>, now: int, dbFault: Option<string>)

  /** `secret()`: the HMAC key, or None where it throws because `AUTH_SECRET` is unset or empty. */
  function Secret(env: Env): Option<string> {
    match env.authSecret
    case Some(s) => if s == "" then None else Some(s)
    case None => None
  }

  /** `signSession(user)`: subject `String(user.id)`, the other claims copied, expiry in 7 days. */
  function SignSession(jose: Jose, env: Env, user: PublicUser, now: int): Option<string> {
    match Secret(env)
    case None => None
    case Some(key) =>
      Some(jose.sign(key, Payload(Some(IntToDecimal(user.id)), user.email, user.fullName, user.role), now + TokenLifetime))
  }

  /** The subject claim as the JavaScript value `payload.sub`. */
  function SubjectValue(p: Payload): JsValue {
    match p.sub
    case Some(s) => Str(s)
    case None => Undefined
  }

  /** `verifySessionId(token)`: the positive finite number `Number(sub)`, or None for every failure. */
  function VerifySessionId(jose: Jose, env: Env, token: string, now: int): (id: Option<real>)
    ensures id.Some? ==> id.value > 0.0
    ensures Secret(env).None? ==> id.None?
    ensures id.Some? <==>
      && Secret(env).Some?
      && jose.verify(Secret(env).value, token, now).Some?
      && ToNumber(SubjectValue(jose.verify(Secret(env).value, token, now).value)).Finite?
      && ToNumber(SubjectValue(jose.verify(Secret(env).value, token, now).value)).r > 0.0
  {
    match Secret(env)
    case None => None
    case Some(key) =>
      match jose.verify(key, token, now)
      case None => None
      case Some(p) =>
        match ToNumber(SubjectValue(p))
        case Finite(r) => if r <= 0.0 then None else Some(r)
        case _ => None
  }

  datatype SessionResult = Anonymous | Authenticated(user: SessionUser) | LookupFailed(message: string)

  /** The identity read from a `users` row; a NULL role reads as `customer`. */
  function SessionUserOf(row: UserRow): (u: SessionUser)
    ensures u.id == row.id && u.email == row.email && u.fullName == row.fullName
    ensures u.role == Admin <==> row.role == Some(Admin)
  {
    SessionUser(row.id, row.email, row.fullName, row.role.GetOr(Customer))
  }

  /**
   * `getSessionUser()`: no cookie, an empty cookie, a token that does not
   * verify, a bad subject and a subject without a row all give Anonymous;
   * a database that throws on the lookup gives LookupFailed.
   */
  function GetSessionUser(ctx: Context, users: seq<UserRow>): (r: SessionResult)
    ensures ctx.cookie.None? || ctx.cookie == Some("") ==> r == Anonymous
    ensures Secret(ctx.env).None? ==> r == Anonymous
    ensures r.LookupFailed? ==> ctx.dbFault == Some(r.message)
    ensures ctx.cookie.Some? && ctx.cookie.value != "" && VerifySessionId(ctx.jose, ctx.env, ctx.cookie.value, ctx.now).None? ==>
      r == Anonymous
    ensures ctx.dbFault.Some? && ctx.cookie.Some? && ctx.cookie.value != ""
            && VerifySessionId(ctx.jose, ctx.env, ctx.cookie.value, ctx.now).Some? ==>
      r == LookupFailed(ctx.dbFault.value)
    ensures r.Authenticated? ==>
      && ctx.dbFault.None? && ctx.cookie.Some?
      && VerifySessionId(ctx.jose, ctx.env, ctx.cookie.value, ctx.now) == Some(r.user.id as real)
      && exists row :: row in users && r.user == SessionUserOf(row)
  {
    match ctx.cookie
    case None => Anonymous
    case Some(token) =>
      if token == "" then Anonymous
      else match VerifySessionId(ctx.jose, ctx.env, token, ctx.now)
        case None => Anonymous
        case Some(id) =>
          if ctx.dbFault.Some? then LookupFailed(ctx.dbFault.value)
          else match UserWithId(users, id)
            case None => Anonymous
            case Some(row) => Authenticated(SessionUserOf(row))
  }

  /** A verified id that no row carries (the user was deleted) is no session. */
  lemma StaleSessionIsAnonymous(ctx: Context, users: seq<UserRow>)
    requires ctx.cookie.Some? && ctx.dbFault.None?
    requires var id := VerifySessionId(ctx.jose, ctx.env, ctx.cookie.value, ctx.now);
             id.Some? ==> forall row :: row in users ==> row.id as real != id.value
    ensures GetSessionUser(ctx, users) == Anonymous
  {
  }

  /**
   * Whatever email, name and role a token claims, a valid token whose
   * subject is the id of a row resolves to that row's identity.
   */
  lemma TokenClaimsIgnored(ctx: Context, users: seq<UserRow>, nextId: int, row: UserRow, p: Payload, exp: int)
    requires Sound(ctx.jose) && Secret(ctx.env).Some? && ctx.dbFault.None?
    requires UsersWellFormed(users, nextId) && row in users
    requires p.sub == Some(IntToDecimal(row.id))
    requires ctx.cookie == Some(ctx.jose.sign(Secret(ctx.env).value, p, exp)) && ctx.now < exp
    ensures GetSessionUser(ctx, users) == Authenticated(SessionUserOf(row))
  {
    CookieVerifies(ctx, p, exp);
    var k :| 0 <= k < |users| && users[k] == row;
    assert row.id >= 1;
    DecimalNumberRoundTrip(row.id);
    SubjectNumber(p, IntToDecimal(row.id), Finite(row.id as real));
    assert VerifySessionId(ctx.jose, ctx.env, ctx.cookie.value, ctx.now) == Some(row.id as real);
    UserWithIdFinds(users, nextId, row);
  }

  /** A token from `signSession` resolves, until it expires, to the row of the id it was signed for. */
  lemma SignedSessionResolves(ctx: Context, users: seq<UserRow>, nextId: int, row: UserRow, user: PublicUser, signedAt: int)
    requires Sound(ctx.jose) && Secret(ctx.env).Some? && ctx.dbFault.None?
    requires UsersWellFormed(users, nextId) && row in users && user.id == row.id
    requires ctx.cookie == SignSession(ctx.jose, ctx.env, user, signedAt)
    requires ctx.now < signedAt + TokenLifetime
    ensures GetSessionUser(ctx, users) == Authenticated(SessionUserOf(row))
  {
    var p := Payload(Some(IntToDecimal(user.id)), user.email, user.fullName, user.role);
    TokenClaimsIgnored(ctx, users, nextId, row, p, signedAt + TokenLifetime);
  }

  /** Once its 7 days are over, a token from `signSession` is no session, whatever the table holds. */
  lemma ExpiredSessionIsAnonymous(ctx: Context, users: seq<UserRow>, user: PublicUser, signedAt: int)
    requires Sound(ctx.jose)
    requires ctx.cookie == SignSession(ctx.jose, ctx.env, user, signedAt)
    requires ctx.now >= signedAt + TokenLifetime
    ensures GetSessionUser(ctx, users) == Anonymous
  {
    if Secret(ctx.env).Some? {
      var key := Secret(ctx.env).value;
      var p := Payload(Some(IntToDecimal(user.id)), user.email, user.fullName, user.role);
      assert ctx.jose.verify(key, ctx.cookie.value, ctx.now) == None;
    }
  }

  /** The subject's number as `verifySessionId` computes it. */
  lemma SubjectNumber(p: Payload, sub: string, n: JsNumber)
    requires p.sub == Some(sub) && StringToNumber(sub) == n
    ensures ToNumber(SubjectValue(p)) == n
  {
  }

  /** The cookie a session was signed into verifies to its claims until it expires. */
  lemma CookieVerifies(ctx: Context, p: Payload, exp: int)
    requires Sound(ctx.jose) && Secret(ctx.env).Some?
    requires ctx.cookie == Some(ctx.jose.sign(Secret(ctx.env).value, p, exp)) && ctx.now < exp
    ensures ctx.cookie.value != ""
    ensures ctx.jose.verify(Secret(ctx.env).value, ctx.cookie.value, ctx.now) == Some(p)
  {
  }

  /** A valid token whose subject is `""` names the id 0 and is rejected. */
  lemma BlankSubjectIsAnonymous(ctx: Context, users: seq<UserRow>, p: Payload, exp: int)
    requires Sound(ctx.jose) && Secret(ctx.env).Some?
    requires p.sub == Some("")
    requires ctx.cookie == Some(ctx.jose.sign(Secret(ctx.env).value, p, exp))
    ensures GetSessionUser(ctx, users) == Anonymous
  {
    if ctx.now < exp {
      CookieVerifies(ctx, p, exp);
      BlankSubjectIsZero();
      SubjectNumber(p, "", Finite(0.0));
    }
  }

  /** A valid token whose subject is `"1.5"` passes `verifySessionId`: there is no integer check. */
  lemma FractionalSubjectVerifies(ctx: Context, p: Payload, exp: int)
    requires Sound(ctx.jose) && Secret(ctx.env).Some?
    requires p.sub == Some("1.5") && ctx.now < exp
    requires ctx.cookie == Some(ctx.jose.sign(Secret(ctx.env).value, p, exp))
    ensures VerifySessionId(ctx.jose, ctx.env, ctx.cookie.value, ctx.now) == Some(1.5)
  {
    CookieVerifies(ctx, p, exp);
    FractionalSubject();
    SubjectNumber(p, "1.5", Finite(1.5));
  }

  /** Such a token still resolves to no session, since row ids are integers. */
  lemma FractionalSubjectFindsNoRow(ctx: Context, users: seq<UserRow>, p: Payload, exp: int)
    requires Sound(ctx.jose) && Secret(ctx.env).Some? && ctx.dbFault.None?
    requires p.sub == Some("1.5") && ctx.now < exp
    requires ctx.cookie == Some(ctx.jose.sign(Secret(ctx.env).value, p, exp))
    ensures GetSessionUser(ctx, users) == Anonymous
  {
    FractionalSubjectVerifies(ctx, p, exp);
    NoIntegerIsFractional(users);
  }

  lemma NoIntegerIsFractional(users: seq<UserRow>)
    ensures UserWithId(users, 1.5).None?
  {
    forall row | row in users ensures row.id as real != 1.5 {
      if row.id <= 1 { assert row.id as real <= 1.0; } else { assert row.id as real >= 2.0; }
    }
  }

  datatype CookieOptions = CookieOptions(httpOnly: bool, sameSite: string, secure: bool, path: string, maxAge: int)

  /** `sessionCookie.options`. */
  function SessionCookieOptions(env: Env): (o: CookieOptions)
    ensures o.httpOnly && o.sameSite == "lax" && o.path == "/"
    ensures o.maxAge == TokenLifetime
    ensures o.secure <==> env.nodeEnv == Some("production")
  {
    CookieOptions(true, "lax", env.nodeEnv == Some("production"), "/", 60 * 60 * 24 * 7)
  }
}
