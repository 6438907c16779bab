/** `POST /api/cart/add`: one more of a product in the caller's cart. */
module CartAddRoute {
  import opened Wrappers
  import opened JsValues
  import opened Tables
  import opened Auth
  import opened Http
  import opened Db

  const InvalidProduct: Response := Json(400, Error("INVALID_PRODUCT"))

  /** The `catch` answer, carrying the error's message. */
  function Failed(message: string): Response {
    Json(500, ErrorWithMessage("CART_ADD_FAILED", message))
  }

  /**
   * `INSERT INTO cart_items (user_id, product_id, quantity) VALUES (?, ?, 1)
   * ON DUPLICATE KEY UPDATE quantity = quantity + 1`: `newId` is the
   * AUTO_INCREMENT value a fresh row would take.
   */
  function AddOne(cart: seq<CartRow>, user: int, product: int, newId: int): (r: seq<CartRow>)
    ensures CartItemOf(cart, user, product).Some? ==> |r| == |cart|
    ensures CartItemOf(cart, user, product).None? ==> r == cart + [CartRow(newId, user, product, 1)]
    ensures forall k :: 0 <= k < |cart| && (cart[k].userId != user || cart[k].productId != product) ==> r[k] == cart[k]
    ensures forall k :: 0 <= k < |cart| ==> r[k].id == cart[k].id && r[k].userId == cart[k].userId && r[k].productId == cart[k].productId
  {
    match CartItemOf(cart, user, product)
    case Some(i) => cart[i := cart[i].(quantity := cart[i].quantity + 1)]
    case None => cart + [CartRow(newId, user, product, 1)]
  }

  /** Adding keeps the table well formed: still one row per pair, and the new id is the largest. */
  lemma AddOneWellFormed(cart: seq<CartRow>, nextId: int, user: int, product: int)
    requires CartWellFormed(cart, nextId)
    ensures CartWellFormed(AddOne(cart, user, product, nextId), nextId + 1)
  {
  }

  /**
   * The quantity of the added pair grows by exactly one (a new row starts
   * at 1); the quantity of every other pair, of any user, is unchanged.
   */
  lemma {:induction false} AddOneQuantities(cart: seq<CartRow>, nextId: int, user: int, product: int, u: int, p: int)
    requires CartWellFormed(cart, nextId)
    ensures QuantityOf(AddOne(cart, user, product, nextId), u, p)
            == QuantityOf(cart, u, p) + (if u == user && p == product then 1 else 0)
  {
    var r := AddOne(cart, user, product, nextId);
    AddOneWellFormed(cart, nextId, user, product);
    match CartItemOf(cart, u, p)
    case Some(k) =>
      CartItemOfFinds(r, k);
    case None =>
      if u == user && p == product {
        CartItemOfFinds(r, |cart|);
      } else {
        assert forall k :: 0 <= k < |r| ==> r[k].userId != u || r[k].productId != p;
      }
  }

  /** The body the pages post: `JSON.stringify({ productId })`. */
  function ProductBody(id: int): JsonBody {
    JsonObject(map["productId" := Num(id as real)])
  }

  /** The posted id of an existing product, other than 0, reaches the upsert. */
  lemma ProductBodyFound(products: map<int, Product>, id: int)
    requires id in products && id != 0
    ensures var n := ToNumber(Field(ProductBody(id), "productId"));
      NumberTruthy(n) && FindProduct(products, n) == Found(id)
  {
    assert IsInteger(id as real);
  }

  /**
   * `INSERT ... ON DUPLICATE KEY UPDATE quantity = quantity + 1`. The
   * statement takes an AUTO_INCREMENT id even when it ends as an update.
   */
  method Upsert(db: Database, user: int, product: int)
    requires db.Valid()
    modifies db
    ensures db.Valid()
    ensures db.users == old(db.users) && db.nextUserId == old(db.nextUserId) && db.products == old(db.products)
    ensures db.wishlist == old(db.wishlist) && db.nextWishId == old(db.nextWishId)
    ensures db.cart == AddOne(old(db.cart), user, product, old(db.nextCartId))
    ensures db.nextCartId == old(db.nextCartId) + 1
  {
    AddOneWellFormed(db.cart, db.nextCartId, user, product);
    db.cart := AddOne(db.cart, user, product, db.nextCartId);
    db.nextCartId := db.nextCartId + 1;
  }

  /**
   * The handler. The session lookup, the product check and the upsert all
   * run inside the `try`; a product id the database cannot read (an
   * infinite number) is an SQL error.
   */
  method Post(db: Database, ctx: Context, body: JsonBody) returns (resp: Response)
    requires db.Valid()
    modifies db
    ensures db.Valid()
    ensures db.users == old(db.users) && db.nextUserId == old(db.nextUserId) && db.products == old(db.products)
    ensures db.wishlist == old(db.wishlist) && db.nextWishId == old(db.nextWishId)
    ensures var s, n := GetSessionUser(ctx, old(db.users)), ToNumber(Field(body, "productId"));
      !(s.Authenticated? && NumberTruthy(n) && FindProduct(db.products, n).Found?) ==>
        db.cart == old(db.cart) && db.nextCartId == old(db.nextCartId)
    ensures var s := GetSessionUser(ctx, old(db.users));
      (s.Anonymous? ==> resp == Unauthenticated) && (s.LookupFailed? ==> resp == Failed(s.message))
    ensures var s, n := GetSessionUser(ctx, old(db.users)), ToNumber(Field(body, "productId"));
      s.Authenticated? && (!NumberTruthy(n) || FindProduct(db.products, n).NotFound?) ==> resp == InvalidProduct
    ensures var s, n := GetSessionUser(ctx, old(db.users)), ToNumber(Field(body, "productId"));
      s.Authenticated? && NumberTruthy(n) && FindProduct(db.products, n).SqlError? ==>
        resp == Failed(FindProduct(db.products, n).message)
    ensures var s, n := GetSessionUser(ctx, old(db.users)), ToNumber(Field(body, "productId"));
      s.Authenticated? && NumberTruthy(n) && FindProduct(db.products, n).Found? ==>
        && resp == Json(200, OkBody)
        && db.cart == AddOne(old(db.cart), s.user.id, FindProduct(db.products, n).id, old(db.nextCartId))
        && db.nextCartId == old(db.nextCartId) + 1
  {
    var s := GetSessionUser(ctx, db.users);
    if s.Anonymous? {
      return Unauthenticated;
    }
    if s.LookupFailed? {
      return Failed(s.message);
    }
    var n := ToNumber(Field(body, "productId"));
    if !NumberTruthy(n) {
      return InvalidProduct;
    }
    match FindProduct(db.products, n)
    case NotFound =>
      resp := InvalidProduct;
    case SqlError(m) =>
      resp := Failed(m);
    case Found(p) =>
      Upsert(db, s.user.id, p);
      resp := Json(200, OkBody);
  }
}
