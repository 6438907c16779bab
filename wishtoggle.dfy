/** `POST /api/wishlist/toggle`: put a product on the caller's wishlist, or take it off. */
module WishlistToggleRoute {
  import opened Wrappers
  import opened JsValues
  import opened Tables
  import opened Auth
  import opened Http
  import opened Db

  const InvalidProduct: Response := Json(400, Error("INVALID_PRODUCT"))

  /** The `catch` answer, carrying the error's message. */
  function Failed(message: string): Response {
    Json(500, ErrorWithMessage("WISHLIST_TOGGLE_FAILED", message))
  }

  /**
   * The row of the pair is deleted when there is one; otherwise a row is
   * inserted with the next id and the current time as `created_at`.
   */
  function Toggle(wish: seq<WishRow>, user: int, product: int, newId: int, now: int): (r: seq<WishRow>)
    ensures WishItemOf(wish, user, product).Some? ==> |r| == |wish| - 1
    ensures WishItemOf(wish, user, product).None? ==> r == wish + [WishRow(newId, user, product, now)]
    ensures forall row :: row in wish && (row.userId != user || row.productId != product) ==> row in r
    ensures forall row :: row in r && (row.userId != user || row.productId != product) ==> row in wish
  {
    match WishItemOf(wish, user, product)
    case Some(i) =>
      assert forall k :: 0 <= k < |wish| && k != i ==> wish[k] in wish[..i] + wish[i + 1..] by {
        forall k | 0 <= k < |wish| && k != i ensures wish[k] in wish[..i] + wish[i + 1..] {
          if k < i { assert wish[k] == (wish[..i] + wish[i + 1..])[k]; }
          else { assert wish[k] == (wish[..i] + wish[i + 1..])[k - 1]; }
        }
      }
      wish[..i] + wish[i + 1..]
    case None => wish + [WishRow(newId, user, product, now)]
  }

  /** Deleting a row keeps the table well formed. */
  lemma RemoveAtWellFormed(wish: seq<WishRow>, nextId: int, i: nat)
    requires WishWellFormed(wish, nextId) && i < |wish|
    ensures WishWellFormed(wish[..i] + wish[i + 1..], nextId)
  {
    var r := wish[..i] + wish[i + 1..];
    forall a | 0 <= a < |r| ensures r[a] == wish[if a < i then a else a + 1] {
    }
    forall a, b | 0 <= a < b < |r|
      ensures r[a].id < r[b].id
      ensures r[a].userId != r[b].userId || r[a].productId != r[b].productId
    {
      var a', b' := if a < i then a else a + 1, if b < i then b else b + 1;
      assert r[a] == wish[a'] && r[b] == wish[b'] && a' < b';
    }
  }

  /** A row with the next id and a pair of its own keeps the table well formed. */
  lemma AppendWellFormed(wish: seq<WishRow>, nextId: int, row: WishRow)
    requires WishWellFormed(wish, nextId) && row.id == nextId
    requires forall i :: 0 <= i < |wish| ==> wish[i].userId != row.userId || wish[i].productId != row.productId
    ensures WishWellFormed(wish + [row], nextId + 1)
  {
    var r := wish + [row];
    forall i, j | 0 <= i < j < |r|
      ensures r[i].id < r[j].id
      ensures r[i].userId != r[j].userId || r[i].productId != r[j].productId
    {
      assert r[i] == wish[i];
      if j < |wish| { assert r[j] == wish[j]; }
    }
  }

  /** Toggling keeps the table well formed; only an insertion uses up the next id. */
  lemma ToggleWellFormed(wish: seq<WishRow>, nextId: int, user: int, product: int, now: int)
    requires WishWellFormed(wish, nextId)
    ensures var r := Toggle(wish, user, product, nextId, now);
      WishWellFormed(r, if Wished(wish, user, product) then nextId else nextId + 1)
  {
    match WishItemOf(wish, user, product)
    case Some(i) =>
      assert Toggle(wish, user, product, nextId, now) == wish[..i] + wish[i + 1..];
      RemoveAtWellFormed(wish, nextId, i);
    case None =>
      AppendWellFormed(wish, nextId, WishRow(nextId, user, product, now));
  }

  /** Deleting a row leaves no row of its pair, since pairs are unique. */
  lemma RemoveAtDropsPair(wish: seq<WishRow>, nextId: int, i: nat)
    requires WishWellFormed(wish, nextId) && i < |wish|
    ensures var r := wish[..i] + wish[i + 1..];
      forall k :: 0 <= k < |r| ==> r[k].userId != wish[i].userId || r[k].productId != wish[i].productId
  {
    var r := wish[..i] + wish[i + 1..];
    forall k | 0 <= k < |r| ensures r[k].userId != wish[i].userId || r[k].productId != wish[i].productId {
      if k < i {
        assert r[k] == wish[k];
      } else {
        assert r[k] == wish[k + 1];
      }
    }
  }

  /** The pair's membership flips. */
  lemma ToggleFlips(wish: seq<WishRow>, nextId: int, user: int, product: int, now: int)
    requires WishWellFormed(wish, nextId)
    ensures Wished(Toggle(wish, user, product, nextId, now), user, product) == !Wished(wish, user, product)
  {
    var r := Toggle(wish, user, product, nextId, now);
    match WishItemOf(wish, user, product)
    case Some(i) =>
      RemoveAtDropsPair(wish, nextId, i);
      assert WishItemOf(r, user, product).None?;
    case None =>
      assert r[|wish|].userId == user && r[|wish|].productId == product;
      assert WishItemOf(r, user, product).Some?;
  }

  /** Every other pair, of the caller or of anyone else, keeps its membership. */
  lemma ToggleKeepsOthers(wish: seq<WishRow>, nextId: int, user: int, product: int, now: int, u: int, p: int)
    requires WishWellFormed(wish, nextId)
    requires u != user || p != product
    ensures Wished(Toggle(wish, user, product, nextId, now), u, p) == Wished(wish, u, p)
  {
    var r := Toggle(wish, user, product, nextId, now);
    if Wished(wish, u, p) {
      var k := WishItemOf(wish, u, p).value;
      assert wish[k] in r;
      var j :| 0 <= j < |r| && r[j] == wish[k];
    }
    if Wished(r, u, p) {
      var k := WishItemOf(r, u, p).value;
      assert r[k] in wish;
      var j :| 0 <= j < |wish| && wish[j] == r[k];
    }
  }

  /** Two toggles of one pair restore the membership of every pair. */
  lemma ToggleTwice(wish: seq<WishRow>, nextId: int, user: int, product: int, t1: int, t2: int, u: int, p: int)
    requires WishWellFormed(wish, nextId)
    ensures var once := Toggle(wish, user, product, nextId, t1);
      var next := if Wished(wish, user, product) then nextId else nextId + 1;
      Wished(Toggle(once, user, product, next, t2), u, p) == Wished(wish, u, p)
  {
    var once := Toggle(wish, user, product, nextId, t1);
    var next := if Wished(wish, user, product) then nextId else nextId + 1;
    ToggleWellFormed(wish, nextId, user, product, t1);
    if u == user && p == product {
      ToggleFlips(wish, nextId, user, product, t1);
      ToggleFlips(once, next, user, product, t2);
    } else {
      ToggleKeepsOthers(wish, nextId, user, product, t1, u, p);
      ToggleKeepsOthers(once, next, user, product, t2, u, p);
    }
  }

  /** The `DELETE` or the `INSERT`; the answer is whether the pair is now wished. */
  method Apply(db: Database, user: int, product: int, now: int) returns (wished: bool)
    requires db.Valid()
    modifies db
    ensures db.Valid()
    ensures db.users == old(db.users) && db.nextUserId == old(db.nextUserId) && db.products == old(db.products)
    ensures db.cart == old(db.cart) && db.nextCartId == old(db.nextCartId)
    ensures db.wishlist == Toggle(old(db.wishlist), user, product, old(db.nextWishId), now)
    ensures wished == !Wished(old(db.wishlist), user, product)
    ensures wished == Wished(db.wishlist, user, product)
    ensures db.nextWishId == old(db.nextWishId) + (if wished then 1 else 0)
  {
    var wish, nextId := db.wishlist, db.nextWishId;
    wished := !Wished(wish, user, product);
    var toggled := Toggle(wish, user, product, nextId, now);
    var next := if wished then nextId + 1 else nextId;
    ToggleWellFormed(wish, nextId, user, product, now);
    ToggleFlips(wish, nextId, user, product, now);
    assert WishWellFormed(toggled, next);
    db.wishlist, db.nextWishId := toggled, next;
  }

  /**
   * The handler. Everything runs inside the `try`; `now` is the database
   * clock that fills `created_at`.
   */
  method Post(db: Database, ctx: Context, body: JsonBody) returns (resp: Response)
    requires db.Valid()
    modifies db
    ensures db.Valid()
    ensures db.users == old(db.users) && db.nextUserId == old(db.nextUserId) && db.products == old(db.products)
    ensures db.cart == old(db.cart) && db.nextCartId == old(db.nextCartId)
    ensures var s, n := GetSessionUser(ctx, old(db.users)), ToNumber(Field(body, "productId"));
      !(s.Authenticated? && NumberTruthy(n) && FindProduct(db.products, n).Found?) ==>
        db.wishlist == old(db.wishlist) && db.nextWishId == old(db.nextWishId)
    ensures var s := GetSessionUser(ctx, old(db.users));
      (s.Anonymous? ==> resp == Unauthenticated) && (s.LookupFailed? ==> resp == Failed(s.message))
    ensures var s, n := GetSessionUser(ctx, old(db.users)), ToNumber(Field(body, "productId"));
      s.Authenticated? && (!NumberTruthy(n) || FindProduct(db.products, n).NotFound?) ==> resp == InvalidProduct
    ensures var s, n := GetSessionUser(ctx, old(db.users)), ToNumber(Field(body, "productId"));
      s.Authenticated? && NumberTruthy(n) && FindProduct(db.products, n).SqlError? ==>
        resp == Failed(FindProduct(db.products, n).message)
    ensures var s, n := GetSessionUser(ctx, old(db.users)), ToNumber(Field(body, "productId"));
      s.Authenticated? && NumberTruthy(n) && FindProduct(db.products, n).Found? ==>
        var p := FindProduct(db.products, n).id;
        && db.wishlist == Toggle(old(db.wishlist), s.user.id, p, old(db.nextWishId), ctx.now)
        && resp == Json(200, OkWished(!Wished(old(db.wishlist), s.user.id, p)))
        && db.nextWishId == old(db.nextWishId) + (if Wished(old(db.wishlist), s.user.id, p) then 0 else 1)
    ensures var s, n := GetSessionUser(ctx, old(db.users)), ToNumber(Field(body, "productId"));
      s.Authenticated? && NumberTruthy(n) && FindProduct(db.products, n).Found? ==>
        resp.body.wished == Wished(db.wishlist, s.user.id, FindProduct(db.products, n).id)
  {
    var s := GetSessionUser(ctx, db.users);
    if s.Anonymous? {
      return Unauthenticated;
    }
    if s.LookupFailed? {
      return Failed(s.message);
    }
    var n := ToNumber(Field(body, "productId"));
    if !NumberTruthy(n) {
      return InvalidProduct;
    }
    match FindProduct(db.products, n)
    case NotFound =>
      resp := InvalidProduct;
    case SqlError(m) =>
      resp := Failed(m);
    case Found(p) =>
      var wished := Apply(db, s.user.id, p, ctx.now);
      resp := Json(200, OkWished(wished));
  }
}
