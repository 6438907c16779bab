/** `POST /api/auth/login`: a read of `users` and a password check; it writes nothing. */
module LoginRoute {
  import opened Wrappers
  import opened Text
  import opened Tables
  import opened Auth
  import opened Credentials
  import opened Http
  import RegisterRoute

  /** The one answer for an unknown email and for a wrong password alike. */
  const InvalidCredentials: Response := Json(401, Error("Identifiants invalides"))

  /** The user object of a stored row: its id, email, name and role as stored, no hash. */
  function PublicOf(row: UserRow): (u: PublicUser)
    ensures u.id == row.id && u.email == row.email && u.fullName == row.fullName && u.role == row.role
  {
    PublicUser(row.id, row.email, row.fullName, row.role)
  }

  /** The handler over the current `users` table. */
  function Post(ctx: Context, bc: Bcrypt, users: seq<UserRow>, email: Option<string>, password: Option<string>): (r: Response)
    ensures NormalizeEmail(email) == "" || NormalizePassword(password) == "" ==> r == RegisterRoute.MissingFields
    ensures r.status == 401 ==> r == InvalidCredentials
    ensures r.status == 200 ==>
      && ctx.dbFault.None? && Secret(ctx.env).Some?
      && r.body.OkUser? && r.cookie.Some? && r.cookie.value.name == CookieName
      && exists row :: row in users && row.email == NormalizeEmail(email)
                       && bc.compare(NormalizePassword(password), row.passwordHash)
                       && r.body.user == PublicOf(row)
    ensures NormalizeEmail(email) != "" && NormalizePassword(password) != "" && ctx.dbFault.None? ==>
      (r == InvalidCredentials <==>
         || UserWithEmail(users, NormalizeEmail(email)).None?
         || !bc.compare(NormalizePassword(password), UserWithEmail(users, NormalizeEmail(email)).value.passwordHash))
    ensures NormalizeEmail(email) != "" && NormalizePassword(password) != "" && ctx.dbFault.Some? ==> r == Crash
    ensures r.status in {200, 400, 401, 500}
  {
    var e, pw := NormalizeEmail(email), NormalizePassword(password);
    if e == "" || pw == "" then RegisterRoute.MissingFields
    else if ctx.dbFault.Some? then Crash
    else match UserWithEmail(users, e)
      case None => InvalidCredentials
      case Some(row) =>
        if !bc.compare(pw, row.passwordHash) then InvalidCredentials
        else RegisterRoute.Welcome(ctx, PublicOf(row))
  }

  /** A wrong password for a stored email is answered exactly as an email nobody registered. */
  lemma WrongPasswordLooksLikeUnknownEmail(ctx: Context, bc: Bcrypt, users: seq<UserRow>, nextId: int,
                                           row: UserRow, email: Option<string>, password: Option<string>)
    requires UsersWellFormed(users, nextId) && row in users
    requires NormalizeEmail(email) == row.email
    requires !bc.compare(NormalizePassword(password), row.passwordHash)
    ensures Post(ctx, bc, users, email, password) == Post(ctx, bc, [], email, password)
  {
    UserWithEmailFinds(users, nextId, row);
  }

  /** The right password for a stored email logs that row in. */
  lemma RightPasswordLogsIn(ctx: Context, bc: Bcrypt, users: seq<UserRow>, nextId: int,
                            row: UserRow, email: Option<string>, password: Option<string>)
    requires UsersWellFormed(users, nextId) && row in users
    requires NormalizeEmail(email) == row.email && row.email != ""
    requires NormalizePassword(password) != "" && ctx.dbFault.None?
    requires bc.compare(NormalizePassword(password), row.passwordHash)
    ensures Post(ctx, bc, users, email, password) == RegisterRoute.Welcome(ctx, PublicOf(row))
  {
    UserWithEmailFinds(users, nextId, row);
  }

  /** The login email is matched up to letter case, as registration stored it. */
  lemma EmailCaseIgnored(ctx: Context, bc: Bcrypt, users: seq<UserRow>, a: string, b: string, password: Option<string>)
    requires ToLower(a) == ToLower(b)
    ensures Post(ctx, bc, users, Some(a), password) == Post(ctx, bc, users, Some(b), password)
  {
    SameEmailUpToCase(a, b);
  }

  /** The row registration appends is found again by its email and its password. */
  lemma LoginFindsRegisteredRow(ctx: Context, bc: Bcrypt, users: seq<UserRow>, nextId: int, row: UserRow,
                                typed: string, password: string)
    requires UsersWellFormed(users, nextId) && Credentials.Sound(bc) && ctx.dbFault.None?
    requires row.id == nextId && row.email == NormalizeEmail(Some(typed)) && row.email != ""
    requires password != "" && exists salt :: row.passwordHash == bc.hash(password, BcryptCost, salt)
    requires UserWithEmail(users, row.email).None?
    ensures Post(ctx, bc, users + [row], Some(typed), Some(password)) == RegisterRoute.Welcome(ctx, PublicOf(row))
  {
    var t := users + [row];
    assert UsersWellFormed(t, nextId + 1) by { AppendUserWellFormed(users, nextId, row); }
    assert row in t;
    assert bc.compare(password, row.passwordHash);
    RightPasswordLogsIn(ctx, bc, t, nextId + 1, row, Some(typed), Some(password));
  }

  /** The cookie a successful answer sets resolves to the answered row for the next 7 days. */
  lemma WelcomeCookieResolves(ctx: Context, users: seq<UserRow>, nextId: int, row: UserRow, later: int)
    requires Auth.Sound(ctx.jose) && Secret(ctx.env).Some? && ctx.dbFault.None?
    requires UsersWellFormed(users, nextId) && row in users
    requires ctx.now <= later < ctx.now + TokenLifetime
    ensures var r := RegisterRoute.Welcome(ctx, PublicOf(row));
      r.cookie.Some? &&
      GetSessionUser(ctx.(cookie := Some(r.cookie.value.value), now := later), users)
        == Authenticated(SessionUserOf(row))
  {
    var user := PublicOf(row);
    var token := SignSession(ctx.jose, ctx.env, user, ctx.now);
    SignedSessionResolves(ctx.(cookie := token, now := later), users, nextId, row, user, ctx.now);
  }

  /**
   * After a successful registration, logging in with an email that
   * normalises alike (any letter case, see `SameEmailUpToCase`) and the
   * same password answers the new user.
   */
  lemma RegisterThenLogin(ctx: Context, bc: Bcrypt, users: seq<UserRow>, nextId: int, salt: nat,
                          email: string, typed: string, password: string, fullName: Option<string>)
    requires UsersWellFormed(users, nextId)
    requires Credentials.Sound(bc) && Secret(ctx.env).Some? && ctx.dbFault.None?
    requires var e, n := NormalizeEmail(Some(email)), NormalizeName(fullName);
             RegisterRoute.Validate(e, password, n).None? && UserWithEmail(users, e).None?
    requires NormalizeEmail(Some(typed)) == NormalizeEmail(Some(email))
    ensures var e, n := NormalizeEmail(Some(email)), NormalizeName(fullName);
      var row := UserRow(nextId, e, bc.hash(password, BcryptCost, salt), n, Some(Customer));
      Post(ctx, bc, users + [row], Some(typed), Some(password)) == RegisterRoute.Welcome(ctx, PublicOf(row))
      && Post(ctx, bc, users + [row], Some(typed), Some(password)).status == 200
      && Post(ctx, bc, users + [row], Some(typed), Some(password)).body == OkUser(RegisterRoute.NewUser(nextId, e, n))
  {
    var e, n := NormalizeEmail(Some(email)), NormalizeName(fullName);
    var row := UserRow(nextId, e, bc.hash(password, BcryptCost, salt), n, Some(Customer));
    assert e != "" && password != "" by {
      assert RegisterRoute.Validate(e, password, n).None?;
    }
    LoginFindsRegisteredRow(ctx, bc, users, nextId, row, typed, password);
  }
}
