# Angora storefront: sessions, accounts, cart and wishlist

This Dafny project models the part of the Angora storefront (a Next.js shop
backed by MySQL) that keeps track of who is signed in and what they keep.
It covers:

- **Session resolution** (`src/lib/auth.ts`). A signed JWT in the
  `angora_session` cookie names a user id. Every request reads that id's row
  again, and only the row is trusted.
- **Account routes.** `POST /api/auth/register` and `POST /api/auth/login`.
- **Cart routes.** `POST /api/cart/add`, `/update` and `/remove`, and
  `GET /api/cart`.
- **Wishlist routes.** `POST /api/wishlist/toggle` and `GET /api/wishlist`.
- **Header badges.** `GET /api/me/counts`.
- **Cart page client.** The `CartClient` component: the item list, the total
  in cents, and the −, + and delete buttons.
- **Wishlist page.** The account wishlist page: the initial load, optimistic
  removal with rollback, and add-to-cart.
- **`useFavorites`.** The hook that keeps a list of favourite product ids in
  browser storage.

The four tables are Dafny values. `users`, `cart_items` and `wishlist_items`
are sequences of rows in primary-key order, and `products` is a map.
`Db.Database` is a class holding them, together with each table's
AUTO_INCREMENT counter. The POST routes are methods that change that object.
Their invariant `Valid()` keeps:

- ids strictly increasing and below the counter;
- emails unique;
- one row per (user, product) pair;
- cart quantities at least 1.

The GET routes, login and session resolution are functions over the tables.
The two React components and the hook are classes whose fields are the
components' state.

Foreign code is passed in as values:

- jose's `SignJWT` and `jwtVerify` are the functions of `Auth.Jose`;
- bcryptjs's `hash` and `compare` are the functions of `Credentials.Bcrypt`;
- the ghost predicates `Auth.Sound` and `Credentials.Sound` state the one
  contract of each that the proofs use.

A request's environment (`AUTH_SECRET`, `NODE_ENV`), its cookie, the clock and
whether the database throws are the fields of `Auth.Context`.

JavaScript's `Number(x)`, truthiness and `<` on NaN are modelled in
`JsValues`, because the routes' input checks depend on them.

Files, one module each:

| file | contents |
|---|---|
| wrappers.dfy | `Option` |
| text.dfy | `trim()`, `toLowerCase()`, decimal digits |
| jsvalues.dfy | JSON bodies, `Number()`, truthiness, mysql2's number parameters |
| tables.dfy | the rows, well-formed tables and the `LIMIT 1` lookups |
| db.dfy | the database object |
| http.dfy | responses and cookies |
| auth.dfy | the session |
| credentials.dfy | input normalisation and bcrypt |
| register.dfy, login.dfy | the account routes |
| cartadd.dfy, cartupdate.dfy, cartremove.dfy, cartlist.dfy | the cart routes |
| wishtoggle.dfy, wishlist.dfy | the wishlist routes |
| counts.dfy | the header badges |
| cartclient.dfy | the cart page component |
| wishlistpage.dfy | the wishlist page |
| favorites.dfy | the favourites hook |

## Model

| member | source | states |
|---|---|---|
| Auth.VerifySessionId | src/lib/auth.ts:36-45 | A session id exists exactly when a secret is set, the token verifies and `Number(sub)` is finite and positive. The id is then that positive number. Without a secret there is none. |
| Auth.GetSessionUser | src/lib/auth.ts:47-67 | No cookie, an empty cookie, no secret or a token that does not verify gives no session, whatever the database does, because no query is made. A verified id with a failing database gives a lookup failure with the database's message. An authenticated user has a verified id that equals the id of some row, and is that row's identity. |
| Auth.SessionUserOf | src/lib/auth.ts:61-66 | The identity is the row's id, email and name. The role is admin exactly when the row says admin, so a NULL role reads as customer. |
| Auth.StaleSessionIsAnonymous | src/lib/auth.ts:55-60 | A verified id that no row carries gives no session. |
| Auth.TokenClaimsIgnored | src/lib/auth.ts:22-34 | Whatever email, name and role a valid token claims, a subject that is a row's id resolves to that row's own identity. |
| Auth.SignedSessionResolves | src/lib/auth.ts:22-67 | A token from `signSession` resolves, until its 7 days are over, to the row of the id it was signed for. |
| Auth.ExpiredSessionIsAnonymous | src/lib/auth.ts:32-43 | After 7 days the same token gives no session, whatever the table holds. |
| Auth.BlankSubjectIsAnonymous | src/lib/auth.ts:39-40 | A valid token whose subject is the empty string reads as id 0 and gives no session. |
| Auth.FractionalSubjectVerifies | src/lib/auth.ts:39-41 | A valid token with subject `"1.5"` passes `verifySessionId` as 1.5, because there is no integer check. |
| Auth.FractionalSubjectFindsNoRow | src/lib/auth.ts:51-60 | Such a token still gives no session, since no integer id equals 1.5. |
| Auth.SessionCookieOptions | src/lib/auth.ts:69-78 | The cookie is httpOnly, `sameSite` lax, path `/`, and lives 7 days. It is secure exactly in production. |
| Credentials.NormalizeEmail | src/app/api/auth/register/route.ts:17 | A normalised email has no upper-case letter and no whitespace at either end. |
| Credentials.NormalizeName | src/app/api/auth/register/route.ts:19 | A normalised name has no whitespace at either end. |
| Credentials.SameEmailUpToCase | src/app/api/auth/login/route.ts:19 | Two emails that differ only in letter case normalise alike. |
| Credentials.NormalizeEmailIdempotent | src/app/api/auth/register/route.ts:17 | Normalising a normalised email changes nothing. |
| RegisterRoute.Validate | src/app/api/auth/register/route.ts:21-26 | The checks pass exactly when email, password and name are non-empty and the password is at least 8 UTF-16 code units long, as `String.length` counts. A missing field gives 400 "Champs manquants". A short password gives 400 "Mot de passe trop court (min 8)". |
| RegisterRoute.AstralPasswordCountsTwice | src/app/api/auth/register/route.ts:24 | A password of four or more characters outside the Basic Multilingual Plane, such as four emoji, passes the length check, since each counts as two. |
| Text.Utf16Length | src/app/api/auth/register/route.ts:24 | `length` is between the number of characters and twice that. It equals the number of characters when none is astral, and twice it when all are. |
| RegisterRoute.Welcome | src/app/api/auth/register/route.ts:44-49 | The answer is 200 with the user and the session cookie exactly when a secret is set. Otherwise the signing throws. The cookie is `angora_session`, its value is the token `signSession` makes for the user, and its options are the session cookie options of the environment. |
| RegisterRoute.Insert | src/app/api/auth/register/route.ts:39-42 | The row is appended with the next AUTO_INCREMENT id, and the tables stay valid. |
| RegisterRoute.Post | src/app/api/auth/register/route.ts:9-50 | Each outcome is stated. A failed check answers it and writes nothing. A failing database crashes before writing. A taken email gives 409 and writes nothing. Otherwise exactly one customer row (normalised email, bcrypt hash at cost 12, trimmed name) is appended and the new user is answered. |
| RegisterRoute.EmailTakenUpToCase | src/app/api/auth/register/route.ts:17-35 | An email stored in any letter case is found again, so `A@B.com` after `a@b.com` is refused. |
| LoginRoute.PublicOf | src/app/api/auth/login/route.ts:41 | The answered user is the row's id, email, name and role, without the hash. |
| LoginRoute.Post | src/app/api/auth/login/route.ts:15-47 | An empty field gives 400. A 401 is always the one "Identifiants invalides" answer. A 200 carries the user of a row with that email whose hash matches the password, and sets the cookie. With both fields present, a failing database gives 500, since the lookup runs outside any `try`. With both fields present and a working database, the 401 happens exactly when the email is unknown or the password does not match. |
| LoginRoute.WrongPasswordLooksLikeUnknownEmail | src/app/api/auth/login/route.ts:31-39 | A wrong password for a stored email is answered exactly as an email nobody registered. |
| LoginRoute.RightPasswordLogsIn | src/app/api/auth/login/route.ts:35-46 | The right password for a stored email logs that row in. |
| LoginRoute.EmailCaseIgnored | src/app/api/auth/login/route.ts:19 | Login gives the same answer for emails that differ only in letter case. |
| LoginRoute.LoginFindsRegisteredRow | src/app/api/auth/login/route.ts:26-46 | The row registration appends is logged in by its email and its password. |
| LoginRoute.WelcomeCookieResolves | src/app/api/auth/login/route.ts:42-45 | The cookie a successful login sets resolves to that row for the next 7 days. |
| LoginRoute.RegisterThenLogin | src/app/api/auth/register/route.ts:37-47 | After a successful registration, logging in with the same password and an email in any letter case answers 200 with the new user. |
| Tables.UserWithIdFinds | src/lib/auth.ts:55-58 | With unique ids, the lookup by id finds the one row that carries it. |
| Tables.UserWithEmailFinds | src/app/api/auth/login/route.ts:26-29 | With unique emails, the lookup by email finds the one row that carries it. |
| Tables.FindProduct | src/app/api/cart/add/route.ts:29-33 | A found product exists and its id equals the number. Not found means no product has that id. An SQL error happens exactly when the number is not finite. |
| JsValues.StringToNumber | src/lib/auth.ts:39 | `Number(s)` of a blank string is 0. |
| JsValues.DecimalNumberRoundTrip | src/lib/auth.ts:30-39 | `Number(String(n))` is `n` for every natural number, so a signed id reads back as itself. |
| JsValues.WordIsNaN | src/app/api/cart/update/route.ts:13 | A non-blank word without digits, other than `Infinity`, reads as NaN. |
| JsValues.SqlNumber | src/app/api/cart/update/route.ts:17-19 | The number MySQL compares `id` with: a JSON number is itself. A string gives a number exactly when it is non-blank and reads as a finite number, and then it is that number. Any other string fails the statement under strict mode. |
| JsValues.WordIsNoSqlNumber | src/app/api/cart/remove/route.ts:17-19 | A digit-free word bound as the item id, such as `"abc"`, fails the statement. |
| CartAddRoute.AddOne | src/app/api/cart/add/route.ts:35-42 | An existing (user, product) row keeps its place. A missing one is appended with quantity 1 and the new id. Ids, owners and products of every row are unchanged, and so is every other pair's row. |
| CartAddRoute.AddOneWellFormed | src/app/api/cart/add/route.ts:35-42 | The upsert keeps the cart table well formed. |
| CartAddRoute.AddOneQuantities | src/app/api/cart/add/route.ts:39 | The added pair's quantity grows by exactly one, starting from 0 when there was no row. Every other pair's quantity is unchanged. |
| CartAddRoute.ProductBodyFound | src/app/api/cart/add/route.ts:24-33 | The body the pages post for an existing product (id not 0) passes the check and finds that product. |
| CartAddRoute.Upsert | src/app/api/cart/add/route.ts:35-42 | The cart becomes the upsert of the pair and the counter advances by one, even when the statement ends as an update. The tables stay valid. |
| CartAddRoute.Post | src/app/api/cart/add/route.ts:19-52 | No session gives 401. A failed lookup gives 500 with its message. A falsy or unknown product gives 400 "INVALID_PRODUCT". A non-finite id gives the SQL error's 500. Otherwise the answer is 200 and the cart is upserted. The cart changes in no other case. |
| CartUpdateRoute.RejectedAsWritten | src/app/api/cart/update/route.ts:13 | The guard as written: a falsy item id, or a quantity whose `Number` is below 1 (NaN compares false). |
| CartUpdateRoute.AsWrittenAdmitsMissingQuantity | src/app/api/cart/update/route.ts:13-20 | A body with an item id and no quantity passes the written guard but not the corrected one. MySQL then cannot store the NULL quantity. |
| CartUpdateRoute.AsWrittenAdmitsTextQuantity | src/app/api/cart/update/route.ts:13-20 | A body whose quantity is a digit-free word passes the written guard but not the corrected one. MySQL then cannot store it. |
| CartUpdateRoute.AsWrittenAdmitsFractionalQuantity | src/app/api/cart/update/route.ts:13-20 | A fractional quantity of at least 1 passes the written guard but not the corrected one. MySQL stores a rounded value, not the quantity sent. |
| CartUpdateRoute.AsWrittenAdmitsNumericText | src/app/api/cart/update/route.ts:13-20 | A numeric string of a whole number of at least 1, such as `"3"`, passes the written guard but not the corrected one. MySQL stores it as that number. |
| CartUpdateRoute.CorrectedRejectsMore | src/app/api/cart/update/route.ts:13 | The corrected guard refuses everything the written guard refuses. |
| CartUpdateRoute.CorrectedAgreesOnWholeNumbers | src/app/api/cart/update/route.ts:13 | On a whole-number quantity the two guards agree. |
| CartUpdateRoute.StoredQuantity | src/app/api/cart/update/route.ts:17-20 | An absent or null quantity cannot be stored. A number is stored rounded to within one half, and a whole number as itself. A string is stored exactly when it is not blank and reads as a finite number, within one half of that number. |
| CartUpdateRoute.AdmittedStoresAtLeastOne | src/app/api/cart/update/route.ts:13-20 | Whatever passes the written guard and can be stored is stored as at least 1, so the as-written handler keeps the cart table valid. |
| CartUpdateRoute.CorrectedStoresTheSame | src/app/api/cart/update/route.ts:13-20 | A body the corrected guard admits is admitted by the written guard too, and is stored as exactly its quantity. On such bodies both handlers act alike. |
| CartUpdateRoute.SetQuantity | src/app/api/cart/update/route.ts:17-20 | Only the row with that id owned by the caller takes the quantity. Every other row is unchanged. |
| CartUpdateRoute.SetQuantityForeignIsNoop | src/app/api/cart/update/route.ts:18 | An unknown id, or another user's item, changes nothing. |
| CartUpdateRoute.SetQuantityOverrides | src/app/api/cart/update/route.ts:18 | The quantity is set, not added: a second update overrides the first. |
| CartUpdateRoute.SetQuantityKeepsWellFormed | src/app/api/cart/update/route.ts:17-20 | A quantity of at least 1 keeps the cart table well formed. |
| CartUpdateRoute.SetQuantityWellFormed | src/app/api/cart/update/route.ts:17-20 | Setting an owned item to `q` of at least 1 leaves that pair with exactly `q`. |
| CartUpdateRoute.Post | src/app/api/cart/update/route.ts:6-27 | The handler with the corrected guard in place of line 13. In the model, `CartClient.CartView.SetQty` posts to this handler; the real page posts to the handler as written, and the two agree on the whole-number bodies the page sends (`CorrectedAgreesOnWholeNumbers`, `CorrectedStoresTheSame`). No session gives 401. A failed lookup or a body that is not an object gives 500 "UPDATE_FAILED". A body the corrected guard refuses gives 400. An item id MySQL cannot read as a number fails the UPDATE and gives 500 "UPDATE_FAILED". Otherwise the answer is 200 and the caller's item takes the quantity. The cart changes in no other case, and the id counter never moves. |
| CartUpdateRoute.PostAsWritten | src/app/api/cart/update/route.ts:6-27 | The handler as written. No session gives 401. A failed lookup or a body that is not an object gives 500 "UPDATE_FAILED". A body line 13 refuses gives 400. An admitted body whose quantity MySQL cannot store, or whose item id it cannot read as a number, gives 500 "UPDATE_FAILED". Otherwise the answer is 200 and the caller's item takes the stored value. The cart changes in no other case. |
| CartRemoveRoute.DeleteOwned | src/app/api/cart/remove/route.ts:17-20 | The rows kept are exactly those that are not the caller's item with that id. |
| CartRemoveRoute.DeleteForeignIsNoop | src/app/api/cart/remove/route.ts:18 | An unknown id, or another user's item, deletes nothing. |
| CartRemoveRoute.DeleteIdempotent | src/app/api/cart/remove/route.ts:18 | Removing twice is removing once. |
| CartRemoveRoute.DeleteWellFormed | src/app/api/cart/remove/route.ts:17-20 | The delete keeps the cart table well formed. |
| CartRemoveRoute.Post | src/app/api/cart/remove/route.ts:6-27 | No session gives 401. A failed lookup or a non-object body gives 500 "REMOVE_FAILED". A falsy id gives 400. An id MySQL cannot read as a number fails the DELETE and gives 500 "REMOVE_FAILED". Otherwise the answer is 200 and the caller's item is deleted. The cart changes in no other case. |
| CartListRoute.Lines | src/app/api/cart/route.ts:24-35 | Every caller's row whose product exists appears, projected. Every line is such a row, projected. |
| CartListRoute.LinesDescending | src/app/api/cart/route.ts:34 | The listing is in strictly descending item id. |
| CartListRoute.LinesIgnoreOtherUsers | src/app/api/cart/route.ts:33 | Another user's row never changes the listing. |
| CartListRoute.Get | src/app/api/cart/route.ts:16-40 | No session gives 401. A failing lookup is an unhandled error. Otherwise the answer is 200 with the caller's lines. |
| CountsRoute.CartCount | src/app/api/me/counts/route.ts:13-16 | The sum is not negative over quantities of at least 1. It is 0 when the user has no row. |
| CountsRoute.WishCount | src/app/api/me/counts/route.ts:17-20 | The count is at most the table's size. It is 0 when the user has no row. |
| CountsRoute.CountsIgnoreOtherUsers | src/app/api/me/counts/route.ts:13-20 | Another user's row, wherever it sits, changes neither count. |
| CountsRoute.CartCountAfterAdd | src/app/api/me/counts/route.ts:13-16 | Adding a product raises the adder's cart count by exactly 1 and nobody else's. |
| CountsRoute.WishCountAfterToggle | src/app/api/me/counts/route.ts:17-20 | A toggle moves the toggler's wishlist count by exactly one, down when the pair was wished and up otherwise, and nobody else's. |
| CountsRoute.Get | src/app/api/me/counts/route.ts:9-23 | No session gives 200 with counts 0 and 0. A failing lookup is an unhandled error. Otherwise the answer is 200 with the caller's cart sum and wishlist count. |
| WishlistToggleRoute.Toggle | src/app/api/wishlist/toggle/route.ts:35-50 | A wished pair loses its row. An unwished pair gains a row with the new id and the current time. Every row of another pair is kept and none is added. |
| WishlistToggleRoute.ToggleWellFormed | src/app/api/wishlist/toggle/route.ts:35-50 | The toggle keeps the table well formed, and only an insertion uses up an id. |
| WishlistToggleRoute.ToggleFlips | src/app/api/wishlist/toggle/route.ts:35-50 | The pair's membership flips. |
| WishlistToggleRoute.ToggleKeepsOthers | src/app/api/wishlist/toggle/route.ts:40-50 | Every other pair keeps its membership. |
| WishlistToggleRoute.ToggleTwice | src/app/api/wishlist/toggle/route.ts:35-50 | Two toggles of one pair restore every pair's membership. |
| WishlistToggleRoute.Apply | src/app/api/wishlist/toggle/route.ts:35-50 | The table becomes the toggle. The answer `wished` is the negation of the old membership and equals the new one. The counter advances only on insertion. |
| WishlistToggleRoute.Post | src/app/api/wishlist/toggle/route.ts:20-58 | The session and product outcomes are as for cart add, with 500 "WISHLIST_TOGGLE_FAILED". On success the table is toggled and `wished` is the pair's new membership. The wishlist changes in no other case. |
| WishlistListRoute.Joined | src/app/api/wishlist/route.ts:23-40 | The rows kept are exactly the caller's rows whose product exists. |
| WishlistListRoute.InsertByDate | src/app/api/wishlist/route.ts:39 | Inserting into a newest-first list keeps it newest first and adds exactly the one row. |
| WishlistListRoute.ByDate | src/app/api/wishlist/route.ts:39 | The result is newest first and a permutation of the rows. |
| WishlistListRoute.EntryOf | src/app/api/wishlist/route.ts:43-53 | An entry keeps the row's id and product id. It is in stock exactly when the product is active. |
| WishlistListRoute.EntriesAreTheCallersRows | src/app/api/wishlist/route.ts:23-53 | There is one entry per joined row. The entries are exactly the projections of the caller's rows whose product exists. |
| WishlistListRoute.EntriesNewestFirst | src/app/api/wishlist/route.ts:39-53 | The entries follow the rows in `created_at DESC` order. |
| WishlistListRoute.Get | src/app/api/wishlist/route.ts:17-55 | No session gives 401. A failing lookup is an unhandled error. Otherwise the answer is 200 with the caller's entries. |
| CartClient.TotalCents | src/components/CartClient.tsx:35-38 | The total of no items is 0. It is not negative when prices and quantities are not. |
| CartClient.TotalConcat | src/components/CartClient.tsx:35-38 | The total of two lists together is the sum of their totals. |
| CartClient.Reloaded | src/components/CartClient.tsx:19-23 | A failed answer gives the empty list. An ok answer gives its lines. |
| CartClient.ListingTotal | src/components/CartClient.tsx:35-38 | The total of the reloaded list is the value of the caller's cart in the tables: price times quantity over the joined rows. |
| CartClient.ReloadedAnonymousIsEmpty | src/components/CartClient.tsx:19-23 | Without a session the page shows an empty cart worth 0. |
| CartClient.QuantityBodyGuard | src/components/CartClient.tsx:49-56 | The body `setQty` posts is refused exactly when the id is 0 or the quantity is below 1. Otherwise it names that item and quantity. |
| CartClient.ItemBodyNamesItem | src/components/CartClient.tsx:58-65 | The body `removeItem` posts names the item and is truthy exactly when the id is not 0. |
| CartClient.CartView.Reload | src/components/CartClient.tsx:19-23 | The list becomes what a fresh `GET /api/cart` gives. |
| CartClient.CartView.AddOne | src/components/CartClient.tsx:40-47 | Online, signed in and with an existing product other than 0, the cart gets the upsert, the id counter moves by one and the list is reloaded. Otherwise (offline, no session, or a product deleted since the list loaded) the cart and the id counter are untouched. The user and wishlist counters never move. |
| CartClient.CartView.SetQty | src/components/CartClient.tsx:49-56 | Online, signed in and with a valid body, the item takes the quantity and the list is reloaded. Otherwise the cart is untouched. No id counter moves. |
| CartClient.CartView.RemoveItem | src/components/CartClient.tsx:58-65 | Online, signed in and with a non-zero id, the item is deleted and the list is reloaded. Otherwise the cart is untouched. No id counter moves. |
| CartClient.CartView.Minus | src/components/CartClient.tsx:155-162 | At quantity 1 or less the item is removed, otherwise it is set one lower. The item is busy while the request runs and no item is busy afterwards. |
| CartClient.CartView.Plus | src/components/CartClient.tsx:171-177 | One more of the item's product when it still exists, with the same busy marking. An unknown product, no session or no network leaves the cart and the id counter untouched. |
| CartClient.CartView.Delete | src/components/CartClient.tsx:186-192 | The item is removed, with the same busy marking. |
| WishlistPage.Without | src/app/account/wishlist/page.tsx:77 | The entries kept are exactly those with another id. |
| WishlistPage.WithoutConcat | src/app/account/wishlist/page.tsx:77 | The filter keeps order: it distributes over concatenation. |
| WishlistPage.WithoutAbsent | src/app/account/wishlist/page.tsx:77 | Removing an id nobody carries changes nothing. |
| WishlistPage.AddErrorToast | src/app/account/wishlist/page.tsx:118-124 | A failed add shows a danger toast with the answer's message, or with the default text. |
| WishlistPage.PostProduct | src/app/account/wishlist/page.tsx:107-111 | Signed in with an existing product, the answer is 200 and the cart gets the upsert. Without a session the answer is 401. A failed lookup gives the add route's 500 with its message. A product that does not exist, or id 0, gives 400 "INVALID_PRODUCT". The cart and its id counter are untouched in each failure; success moves the counter by one. The user and wishlist counters never move. |
| WishlistPage.Page.Load | src/app/account/wishlist/page.tsx:44-66 | 401 makes the page a guest page. An ok answer replaces the list. Any other failure keeps it. Loading ends in every case. |
| WishlistPage.Page.RemoveFavorite | src/app/account/wishlist/page.tsx:73-99 | The entry disappears at once. A network failure restores the list and shows the network toast. A 401 keeps the filtered list and goes to the login page. Another failure shows the error toast and restores the list, or the reloaded one. Success shows "Retiré des favoris". |
| WishlistPage.Page.AddToCart | src/app/account/wishlist/page.tsx:101-135 | An out-of-stock entry does nothing. Otherwise the product is posted with `addingProductId` set meanwhile and cleared after. Offline shows "Erreur réseau." without a redirect. A 401 goes to the login page and shows no new toast. A failed lookup or an unknown product shows the error toast of that answer, its message or the default text, without a redirect. In all these cases the cart and its id counter are untouched. Success upserts the cart, moves the counter by one, and shows the product's name without a redirect. The user and wishlist counters never move. |
| Favorites.Removed | src/hook/useFavorites.ts:25-27 | The ids kept are exactly those other than `id`. |
| Favorites.RemovedConcat | src/hook/useFavorites.ts:25-27 | The filter distributes over concatenation. |
| Favorites.RemovedAbsent | src/hook/useFavorites.ts:25-27 | Removing an absent id changes nothing. |
| Favorites.AddThenRemove | src/hook/useFavorites.ts:21-27 | Adding an id and removing it again gives the list without that id. |
| Favorites.ToggleTwiceRestores | src/hook/useFavorites.ts:29-35 | Toggling an id that is not a favourite twice gives back exactly the list it started from. |
| Favorites.Hook.Mount | src/hook/useFavorites.ts:9-19 | A stored list replaces the empty one, and the list is written back to storage. |
| Favorites.Hook.Add | src/hook/useFavorites.ts:21-23 | The id is appended, is a favourite and is saved. |
| Favorites.Hook.Remove | src/hook/useFavorites.ts:25-27 | Every copy of the id is dropped and the list is saved. |
| Favorites.Hook.Toggle | src/hook/useFavorites.ts:29-37 | A favourite is removed and any other id appended. The id's membership flips, no other id's membership changes, and the list is saved. |
| Text.TrimIdempotent | src/app/api/auth/register/route.ts:17-19 | Trimming twice is trimming once. |
| Text.ToLowerTrimCommute | src/app/api/auth/register/route.ts:17 | Lower-casing and trimming commute. |
| Text.DecimalRoundTrip | src/lib/auth.ts:30 | The decimal digits of `String(n)` read back as `n`. |

## Left out

- Favorites.Hook.Mount: the storage entry is taken to be a list of ids or
  absent. The real entry is a string: an empty one counts as absent and one
  that is not JSON makes `JSON.parse` throw. The hook itself only ever
  writes JSON arrays.
- Modelled as values rather than I/O:
  - HTTP parsing, `NextResponse` and the cookie store. A route gets its JSON
    body or its fields as a value and returns a `Response` value.
  - A request body that is not valid JSON.
- Never modelled: real cryptography, time zones and the MySQL driver.
- bcrypt's random salt is a parameter. Only `compare(pw, hash(pw, ...))` is
  assumed of bcrypt, through `Credentials.Sound`.
- A database failure is all or nothing per request (`Context.dbFault`).
  Statements of one request cannot fail separately, and concurrent
  requests are not modelled.
- Register and login fields are strings or absent. A field holding another
  JSON type (number, object) is not modelled.
- Request bodies hold primitive JSON values only. An array or object in a
  field is not modelled, though `Number([5])` is 5 and the cart routes
  would accept `{productId: [5]}` as product 5.
- JavaScript numbers are read as exact `real` values. float64 rounding and
  the limits of its range are not modelled.
- JsValues.SqlNumber: assumes MySQL's strict SQL mode, in which a string
  id that is not a number in full (`"abc"`, `"5x"`) fails the UPDATE or
  DELETE with a truncation error. Surrounding whitespace is read with
  JavaScript's whitespace set, and `"1e3"` fails here although MySQL reads
  it as 1000.
- String comparisons in `WHERE` clauses (`email = ?`) are exact here.
  MySQL's default collations ignore case and accents, so in the source
  `josé@x` and `jose@x` could match the same row (the schema is not part
  of this model).
- MySQL's INT range is not modelled. Neither `quantity + 1` in the cart
  upsert nor a large quantity in the update can overflow here.
- CartUpdateRoute.StoredQuantity: assumes MySQL's default strict SQL mode
  and a NOT NULL `quantity` column (the schema is not part of this model).
  A fractional string is rounded like a number, and the binary-to-decimal
  details of the rounding are not modelled.
- `Number()` reads decimal literals with an optional sign and fraction, and
  `Infinity`. Exponent forms (`1e3`) and `0x`/`0o`/`0b` literals read as
  NaN here.
- `toLowerCase()` maps only `A`-`Z`. Other letters are kept as they are, so
  two emails that differ in the case of a non-ASCII letter count as
  different here.
- `GET /api/wishlist` sorts by `created_at` only. Rows of the same date
  come in an unspecified order; the model inserts them stably.
- `DELETE /api/wishlist/[id]` (src/app/api/wishlist/[id]/route.ts) is not
  part of this model. The wishlist page gets its outcome, and the outcome
  of its own reload, as parameters.
- The pages' toasts are values, with no timing or rendering. Router
  navigation is the `redirectedToLogin` flag, and the header badge
  refresh event is not modelled.
- The cart page's checkout button (src/components/CartClient.tsx:230-235)
  is always disabled and has no handler, so there is nothing to model.
- CartClient.CartView.AddOne, SetQty and RemoveItem: one `online` flag
  covers both requests. A network failure that hits only the reload, after
  the POST has gone through, is not modelled.
- The page components' rendering (markup, images, formatting of prices) is
  not modelled.
- CartClient.CartView.Minus: the row passed in is trusted as the item's
  current state. The re-render that would refresh it between clicks is not
  modelled.
- React state updates happen in place. Batching and effect scheduling are
  folded into each handler's final state.

## Findings

| source | as written | input that shows it | evidently intended | confidence | as-written member | corrected member |
|---|---|---|---|---|---|---|
| src/app/api/cart/update/route.ts:13 | `!body.cartItemId \|\| body.quantity < 1` refuses only quantities that compare below 1, and `NaN < 1` is false | `{cartItemId: 5}`, `{cartItemId: 5, quantity: "abc"}` or `{cartItemId: 5, quantity: 2.5}` pass the guard and reach the UPDATE | only a whole quantity of at least 1 is accepted | not executed | CartUpdateRoute.AsWrittenAdmitsMissingQuantity | CartUpdateRoute.CorrectedRejectsMore |
| src/app/api/cart/update/route.ts:13-20 | a body the guard admits goes straight into `SET quantity = ?` | `{cartItemId: 5}` and `{cartItemId: 5, quantity: "abc"}` answer 500 "UPDATE_FAILED", and `{cartItemId: 5, quantity: 2.5}` stores 3 | such bodies are answered 400 "INVALID_DATA" and nothing is written | not executed | CartUpdateRoute.PostAsWritten | CartUpdateRoute.CorrectedStoresTheSame |
