/** What a route handler answers: a status, a JSON body, and maybe a cookie to set. */
module Http {
  import opened Wrappers
  import opened Auth

  /** A row of `GET /api/cart`. */
  datatype CartLine = CartLine(
    cartItemId: int, quantity: int, productId: int,
    name: string, priceCents: int, imageUrl: Option<string>)

  /** An entry of `GET /api/wishlist`. */
  datatype WishEntry = WishEntry(
    id: int, productId: int, name: string, description: Option<string>,
    priceCents: int, image: Option<string>, category: string, inStock: bool)

  datatype SetCookie = SetCookie(name: string, value: string, options: CookieOptions)

  datatype Body =
    | Error(error: string)
    | ErrorWithMessage(error: string, message: string)
    | OkBody
    | OkUser(user: PublicUser)
    | OkWished(wished: bool)
    | CartLines(lines: seq<CartLine>)
    | WishEntries(entries: seq<WishEntry>)
    | Counts(cartCount: int, wishlistCount: int)
    | ServerError  // an exception escaped the handler and Next.js answered on its own

  datatype Response = Response(status: int, body: Body, cookie: Option<SetCookie>)

  /** `res.ok`. */
  predicate IsOk(r: Response) { 200 <= r.status <= 299 }

  /** `NextResponse.json(body, { status })`. */
  function Json(status: int, body: Body): Response { Response(status, body, None) }

  const Unauthenticated: Response := Json(401, Error("UNAUTHENTICATED"))
  const Crash: Response := Response(500, ServerError, None)
}
