/** `POST /api/cart/remove`: delete one of the caller's cart items. */
module CartRemoveRoute {
  import opened Wrappers
  import opened JsValues
  import opened Tables
  import opened Auth
  import opened Http
  import opened Db

  const InvalidData: Response := Json(400, Error("INVALID_DATA"))
  const RemoveFailed: Response := Json(500, Error("REMOVE_FAILED"))

  /** Whether `row` is the item `itemId` of `user`. */
  predicate Owned(row: CartRow, itemId: real, user: int) {
    row.id as real == itemId && row.userId == user
  }

  /** `DELETE FROM cart_items WHERE id = ? AND user_id = ?`: the other rows, in order. */
  function DeleteOwned(cart: seq<CartRow>, itemId: real, user: int): (r: seq<CartRow>)
    ensures |r| <= |cart|
    ensures forall row :: row in r <==> row in cart && !Owned(row, itemId, user)
  {
    if cart == [] then []
    else if Owned(cart[0], itemId, user) then DeleteOwned(cart[1..], itemId, user)
    else [cart[0]] + DeleteOwned(cart[1..], itemId, user)
  }

  /** A nonexistent id, or the id of another user's item, deletes nothing. */
  lemma {:induction false} DeleteForeignIsNoop(cart: seq<CartRow>, itemId: real, user: int)
    requires forall k :: 0 <= k < |cart| ==> !Owned(cart[k], itemId, user)
    ensures DeleteOwned(cart, itemId, user) == cart
  {
    if cart != [] {
      DeleteForeignIsNoop(cart[1..], itemId, user);
    }
  }

  /** Removing twice is removing once. */
  lemma DeleteIdempotent(cart: seq<CartRow>, itemId: real, user: int)
    ensures DeleteOwned(DeleteOwned(cart, itemId, user), itemId, user) == DeleteOwned(cart, itemId, user)
  {
    var r := DeleteOwned(cart, itemId, user);
    assert forall k :: 0 <= k < |r| ==> r[k] in r;
    DeleteForeignIsNoop(r, itemId, user);
  }

  /** A row before a well-formed table, with a smaller id and a pair of its own, keeps it well formed. */
  lemma PrependWellFormed(x: CartRow, rest: seq<CartRow>, nextId: int)
    requires CartWellFormed(rest, nextId)
    requires 1 <= x.id < nextId && x.quantity >= 1
    requires forall y :: y in rest ==> x.id < y.id && (x.userId != y.userId || x.productId != y.productId)
    ensures CartWellFormed([x] + rest, nextId)
  {
    var r := [x] + rest;
    forall i, j | 0 <= i < j < |r|
      ensures r[i].id < r[j].id
      ensures r[i].userId != r[j].userId || r[i].productId != r[j].productId
    {
      assert r[j] == rest[j - 1];
      if i > 0 { assert r[i] == rest[i - 1]; } else { assert rest[j - 1] in rest; }
    }
  }

  /** Deleting keeps the table well formed: the rows left keep their order, ids and pairs. */
  lemma {:induction false} DeleteWellFormed(cart: seq<CartRow>, nextId: int, itemId: real, user: int)
    requires CartWellFormed(cart, nextId)
    ensures CartWellFormed(DeleteOwned(cart, itemId, user), nextId)
  {
    if cart != [] {
      var tail := cart[1..];
      assert CartWellFormed(tail, nextId);
      DeleteWellFormed(tail, nextId, itemId, user);
      var rest := DeleteOwned(tail, itemId, user);
      if !Owned(cart[0], itemId, user) {
        forall y | y in rest
          ensures cart[0].id < y.id && (cart[0].userId != y.userId || cart[0].productId != y.productId)
        {
          var k :| 0 <= k < |tail| && tail[k] == y;
          assert cart[k + 1] == y;
        }
        PrependWellFormed(cart[0], rest, nextId);
      }
    }
  }

  /**
   * The handler; like update, it does not guard `req.json()`. The item id is
   * bound as it came, so an id MySQL cannot read as a number fails the
   * DELETE and the `catch` answers 500.
   */
  method Post(db: Database, ctx: Context, body: JsonBody) returns (resp: Response)
    requires db.Valid()
    modifies db
    ensures db.Valid()
    ensures db.users == old(db.users) && db.nextUserId == old(db.nextUserId) && db.products == old(db.products)
    ensures db.wishlist == old(db.wishlist) && db.nextWishId == old(db.nextWishId)
    ensures db.nextCartId == old(db.nextCartId)
    ensures var s := GetSessionUser(ctx, old(db.users));
      (s.Anonymous? ==> resp == Unauthenticated) && (s.LookupFailed? ==> resp == RemoveFailed)
    ensures GetSessionUser(ctx, old(db.users)).Authenticated? && !body.JsonObject? ==> resp == RemoveFailed
    ensures GetSessionUser(ctx, old(db.users)).Authenticated? && body.JsonObject? && !Truthy(Field(body, "cartItemId")) ==>
      resp == InvalidData
    ensures var s, v := GetSessionUser(ctx, old(db.users)), Field(body, "cartItemId");
      s.Authenticated? && body.JsonObject? && Truthy(v) && SqlNumber(v).None? ==> resp == RemoveFailed
    ensures var s, v := GetSessionUser(ctx, old(db.users)), Field(body, "cartItemId");
      !(s.Authenticated? && body.JsonObject? && Truthy(v) && SqlNumber(v).Some?) ==> db.cart == old(db.cart)
    ensures var s, v := GetSessionUser(ctx, old(db.users)), Field(body, "cartItemId");
      s.Authenticated? && body.JsonObject? && Truthy(v) && SqlNumber(v).Some? ==>
        && resp == Json(200, OkBody)
        && db.cart == DeleteOwned(old(db.cart), SqlNumber(v).value, s.user.id)
  {
    var s := GetSessionUser(ctx, db.users);
    if s.Anonymous? {
      return Unauthenticated;
    }
    if s.LookupFailed? || !body.JsonObject? {
      return RemoveFailed;
    }
    var v := Field(body, "cartItemId");
    if !Truthy(v) {
      return InvalidData;
    }
    var itemId := SqlNumber(v);
    if itemId.None? {
      return RemoveFailed;
    }
    DeleteWellFormed(db.cart, db.nextCartId, itemId.value, s.user.id);
    db.cart := DeleteOwned(db.cart, itemId.value, s.user.id);
    resp := Json(200, OkBody);
  }
}
