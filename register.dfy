/** `POST /api/auth/register`: validate, refuse a taken email, insert a customer, sign a session. */
module RegisterRoute {
  import opened Wrappers
  import opened Text
  import opened Tables
  import opened Auth
  import opened Credentials
  import opened Http
  import opened Db

  const MissingFields: Response := Json(400, Error("Champs manquants"))
  const PasswordTooShort: Response := Json(400, Error("Mot de passe trop court (min 8)"))
  const EmailTaken: Response := Json(409, Error("Email déjà utilisé"))

  /** The minimum password length, in UTF-16 code units as `String.length` counts them. */
  const MinPasswordLength: int := 8

  /** The field checks, in source order: the first one that fails, or None. */
  function Validate(email: string, password: string, fullName: string): (r: Option<Response>)
    ensures r.None? <==> email != "" && password != "" && fullName != "" && Utf16Length(password) >= MinPasswordLength
    ensures (email == "" || password == "" || fullName == "") ==> r == Some(MissingFields)
    ensures email != "" && password != "" && fullName != "" && Utf16Length(password) < MinPasswordLength ==>
              r == Some(PasswordTooShort)
  {
    if email == "" || password == "" || fullName == "" then Some(MissingFields)
    else if Utf16Length(password) < MinPasswordLength then Some(PasswordTooShort)
    else None
  }

  /**
   * The length is JavaScript's: four characters outside the Basic
   * Multilingual Plane, such as "😀😀😀😀", count as eight and pass.
   */
  lemma AstralPasswordCountsTwice(email: string, password: string, fullName: string)
    requires email != "" && fullName != ""
    requires |password| >= 4 && forall i :: 0 <= i < |password| ==> IsAstral(password[i])
    ensures Validate(email, password, fullName).None?
  {
  }

  /** The public part of the row the handler inserts: no hash, and always the customer role. */
  function NewUser(id: int, email: string, fullName: string): (u: PublicUser)
    ensures u.role == Some(Customer) && u.id == id
  {
    PublicUser(id, email, fullName, Some(Customer))
  }

  /** The success response: the new user and the session cookie, or a crash when no secret is set. */
  function Welcome(ctx: Context, user: PublicUser): (r: Response)
    ensures r.status == 200 <==> Secret(ctx.env).Some?
    ensures r.status == 200 ==> r.body == OkUser(user) && r.cookie.Some? && r.cookie.value.name == CookieName
    ensures r.status == 200 ==>
      && r.cookie.value.options == SessionCookieOptions(ctx.env)
      && Some(r.cookie.value.value) == SignSession(ctx.jose, ctx.env, user, ctx.now)
    ensures r.status != 200 ==> r == Crash
  {
    match SignSession(ctx.jose, ctx.env, user, ctx.now)
    case Some(token) => Response(200, OkUser(user), Some(SetCookie(CookieName, token, SessionCookieOptions(ctx.env))))
    case None => Crash
  }

  /** `INSERT INTO users`: the row takes the next AUTO_INCREMENT id; its email must be free. */
  method Insert(db: Database, row: UserRow)
    requires db.Valid() && row.id == db.nextUserId
    requires UserWithEmail(db.users, row.email).None?
    modifies db
    ensures db.Valid()
    ensures db.users == old(db.users) + [row] && db.nextUserId == old(db.nextUserId) + 1
    ensures db.products == old(db.products)
    ensures db.cart == old(db.cart) && db.nextCartId == old(db.nextCartId)
    ensures db.wishlist == old(db.wishlist) && db.nextWishId == old(db.nextWishId)
  {
    AppendUserWellFormed(db.users, db.nextUserId, row);
    db.users := db.users + [row];
    db.nextUserId := db.nextUserId + 1;
  }

  /**
   * The handler. `salt` stands for bcrypt's random salt. A database that
   * throws fails the first query, before anything is written; a missing
   * `AUTH_SECRET` fails the signing, after the row is inserted.
   */
  method Post(db: Database, ctx: Context, bc: Bcrypt, salt: nat,
              email: Option<string>, password: Option<string>, fullName: Option<string>)
    returns (resp: Response)
    requires db.Valid()
    modifies db
    ensures db.Valid()
    ensures db.products == old(db.products)
    ensures db.cart == old(db.cart) && db.nextCartId == old(db.nextCartId)
    ensures db.wishlist == old(db.wishlist) && db.nextWishId == old(db.nextWishId)
    ensures var e, pw, n := NormalizeEmail(email), NormalizePassword(password), NormalizeName(fullName);
      Validate(e, pw, n).Some? ==>
        resp == Validate(e, pw, n).value && db.users == old(db.users) && db.nextUserId == old(db.nextUserId)
    ensures var e, pw, n := NormalizeEmail(email), NormalizePassword(password), NormalizeName(fullName);
      Validate(e, pw, n).None? && ctx.dbFault.Some? ==>
        resp == Crash && db.users == old(db.users) && db.nextUserId == old(db.nextUserId)
    ensures var e, pw, n := NormalizeEmail(email), NormalizePassword(password), NormalizeName(fullName);
      Validate(e, pw, n).None? && ctx.dbFault.None? && UserWithEmail(old(db.users), e).Some? ==>
        resp == EmailTaken && db.users == old(db.users) && db.nextUserId == old(db.nextUserId)
    ensures var e, pw, n := NormalizeEmail(email), NormalizePassword(password), NormalizeName(fullName);
      Validate(e, pw, n).None? && ctx.dbFault.None? && UserWithEmail(old(db.users), e).None? ==>
        && db.users == old(db.users) + [UserRow(old(db.nextUserId), e, bc.hash(pw, BcryptCost, salt), n, Some(Customer))]
        && db.nextUserId == old(db.nextUserId) + 1
        && resp == Welcome(ctx, NewUser(old(db.nextUserId), e, n))
  {
    var e, pw, n := NormalizeEmail(email), NormalizePassword(password), NormalizeName(fullName);
    var checked := Validate(e, pw, n);
    if checked.Some? {
      return checked.value;
    }
    if ctx.dbFault.Some? {
      return Crash;
    }
    if UserWithEmail(db.users, e).Some? {
      return EmailTaken;
    }
    var id := db.nextUserId;
    Insert(db, UserRow(id, e, bc.hash(pw, BcryptCost, salt), n, Some(Customer)));
    resp := Welcome(ctx, NewUser(id, e, n));
  }

  /** An email already stored up to letter case is taken: `A@B.com` after `a@b.com` is refused. */
  lemma EmailTakenUpToCase(users: seq<UserRow>, row: UserRow, stored: string, typed: string)
    requires row in users && row.email == NormalizeEmail(Some(stored))
    requires ToLower(typed) == ToLower(stored)
    ensures UserWithEmail(users, NormalizeEmail(Some(typed))).Some?
  {
    SameEmailUpToCase(typed, stored);
  }
}
