/**
 * `POST /api/cart/update`: set the quantity of one of the caller's cart
 * items. The guard as written lets a missing, non-numeric or fractional
 * quantity through to the UPDATE. `PostAsWritten` is the handler as
 * written; `Post`, which the cart page uses, is the handler with the
 * corrected guard.
 */
module CartUpdateRoute {
  import opened Wrappers
  import opened Text
  import opened JsValues
  import opened Tables
  import opened Auth
  import opened Http
  import opened Db

  const InvalidData: Response := Json(400, Error("INVALID_DATA"))
  const UpdateFailed: Response := Json(500, Error("UPDATE_FAILED"))

  /** `!body.cartItemId || body.quantity < 1`, as written: NaN compares false, so it passes. */
  predicate RejectedAsWritten(body: JsonBody) {
    !Truthy(Field(body, "cartItemId")) || LessThan(ToNumber(Field(body, "quantity")), 1.0)
  }

  /** A quantity the `cart_items.quantity` column can take as meant: a whole JSON number of at least 1. */
  predicate WholeQuantity(v: JsValue) {
    v.Num? && IsInteger(v.n) && v.n >= 1.0
  }

  /** The guard as intended: an item id, and a whole quantity of at least 1. */
  predicate Rejected(body: JsonBody) {
    !Truthy(Field(body, "cartItemId")) || !WholeQuantity(Field(body, "quantity"))
  }

  /**
   * The guard as written admits a body without a quantity, such as
   * `{cartItemId: 5}`: `NaN < 1` is false. The UPDATE then binds NULL and fails.
   */
  lemma AsWrittenAdmitsMissingQuantity(body: JsonBody)
    requires Truthy(Field(body, "cartItemId")) && Field(body, "quantity") == Undefined
    ensures !RejectedAsWritten(body) && Rejected(body)
    ensures StoredQuantity(Field(body, "quantity")).None?
  {
  }

  /**
   * The guard as written admits a non-numeric quantity, such as
   * `{cartItemId: 5, quantity: "abc"}`: a word without digits reads as NaN.
   * MySQL then refuses the word for the INT column, and the UPDATE fails.
   */
  lemma AsWrittenAdmitsTextQuantity(body: JsonBody, t: string)
    requires Truthy(Field(body, "cartItemId")) && Field(body, "quantity") == Str(t)
    requires Trim(t) != [] && Trim(t) != "Infinity" && Trim(t) != "+Infinity" && Trim(t) != "-Infinity"
    requires forall i :: 0 <= i < |t| ==> !IsDigit(t[i])
    ensures !RejectedAsWritten(body) && Rejected(body)
    ensures StoredQuantity(Field(body, "quantity")).None?
  {
    WordIsNaN(t);
  }

  /**
   * The guard as written admits a fractional quantity, such as
   * `{cartItemId: 5, quantity: 2.5}`. MySQL rounds it, so what is stored
   * is not the quantity sent.
   */
  lemma AsWrittenAdmitsFractionalQuantity(body: JsonBody, q: real)
    requires Truthy(Field(body, "cartItemId")) && Field(body, "quantity") == Num(q)
    requires q >= 1.0 && !IsInteger(q)
    ensures !RejectedAsWritten(body) && Rejected(body)
    ensures StoredQuantity(Field(body, "quantity")).Some?
    ensures StoredQuantity(Field(body, "quantity")).value as real != q
  {
  }

  /** Every body the written guard refuses, the corrected one refuses too. */
  lemma CorrectedRejectsMore(body: JsonBody)
    requires RejectedAsWritten(body)
    ensures Rejected(body)
  {
  }

  /** On a whole-number quantity, the two guards agree. */
  lemma CorrectedAgreesOnWholeNumbers(body: JsonBody, q: real)
    requires Field(body, "quantity") == Num(q) && IsInteger(q)
    ensures Rejected(body) <==> RejectedAsWritten(body)
  {
  }

  /** MySQL's rounding of a number to an INT column: to the nearest integer, halves away from zero. */
  function RoundHalfAway(r: real): (n: int)
    ensures -0.5 <= r - n as real <= 0.5
    ensures IsInteger(r) ==> n == r.Floor
    ensures r >= 1.0 ==> n >= 1
  {
    if r >= 0.0 then (r + 0.5).Floor else -(-r + 0.5).Floor
  }

  /**
   * What `SET quantity = ?` stores for the bound quantity under MySQL's
   * default strict mode, with `quantity` a NOT NULL INT column: a number is
   * rounded, `true` and `false` are 1 and 0, a numeric string is read and
   * rounded. NULL (an absent quantity) and any other string make the
   * statement fail, which is None.
   */
  function StoredQuantity(v: JsValue): (q: Option<int>)
    ensures v.Undefined? || v.Null? ==> q.None?
    ensures v.Num? ==> q.Some? && -0.5 <= v.n - q.value as real <= 0.5
    ensures v.Num? && IsInteger(v.n) ==> q == Some(v.n.Floor)
    ensures v.Str? ==> (q.Some? <==> Trim(v.s) != [] && StringToNumber(v.s).Finite?)
    ensures v.Str? && q.Some? ==> -0.5 <= StringToNumber(v.s).r - q.value as real <= 0.5
  {
    match v
    case Num(r) => Some(RoundHalfAway(r))
    case Bool(b) => Some(if b then 1 else 0)
    case Str(s) =>
      if Trim(s) == [] then None
      else (match StringToNumber(s) case Finite(r) => Some(RoundHalfAway(r)) case _ => None)
    case _ => None
  }

  /** Whatever the written guard lets through and MySQL stores is at least 1, so the table stays well formed. */
  lemma AdmittedStoresAtLeastOne(body: JsonBody)
    requires !RejectedAsWritten(body) && StoredQuantity(Field(body, "quantity")).Some?
    ensures StoredQuantity(Field(body, "quantity")).value >= 1
  {
    var v := Field(body, "quantity");
    match v
    case Num(r) =>
      assert ToNumber(v) == Finite(r);
    case Bool(b) =>
    case Str(t) =>
      assert StringToNumber(t).Finite?;
    case _ =>
  }

  /**
   * A body the corrected guard admits, the written guard admits too, and the
   * UPDATE stores exactly its quantity: both handlers do the same on it.
   */
  lemma CorrectedStoresTheSame(body: JsonBody)
    requires !Rejected(body)
    ensures !RejectedAsWritten(body)
    ensures StoredQuantity(Field(body, "quantity")) == Some(Field(body, "quantity").n.Floor)
  {
  }

  /**
   * A numeric string, such as `{cartItemId: 5, quantity: "3"}`, is refused
   * by the corrected guard, but passes the written one and is stored as its
   * number.
   */
  lemma AsWrittenAdmitsNumericText(body: JsonBody, t: string, r: real)
    requires Truthy(Field(body, "cartItemId")) && Field(body, "quantity") == Str(t)
    requires Trim(t) != [] && StringToNumber(t) == Finite(r) && IsInteger(r) && r >= 1.0
    ensures !RejectedAsWritten(body) && Rejected(body)
    ensures StoredQuantity(Field(body, "quantity")) == Some(r.Floor)
  {
  }

  /** `UPDATE cart_items SET quantity = ? WHERE id = ? AND user_id = ?`. */
  function SetQuantity(cart: seq<CartRow>, itemId: real, user: int, q: int): (r: seq<CartRow>)
    ensures |r| == |cart|
    ensures forall k :: 0 <= k < |cart| ==>
      r[k] == if cart[k].id as real == itemId && cart[k].userId == user then cart[k].(quantity := q) else cart[k]
  {
    if cart == [] then []
    else
      var row := cart[0];
      [if row.id as real == itemId && row.userId == user then row.(quantity := q) else row]
        + SetQuantity(cart[1..], itemId, user, q)
  }

  /** A nonexistent id, or the id of another user's item, changes nothing. */
  lemma SetQuantityForeignIsNoop(cart: seq<CartRow>, itemId: real, user: int, q: int)
    requires forall k :: 0 <= k < |cart| ==> cart[k].id as real != itemId || cart[k].userId != user
    ensures SetQuantity(cart, itemId, user, q) == cart
  {
  }

  /** The set is absolute: a second update overrides the first. */
  lemma SetQuantityOverrides(cart: seq<CartRow>, itemId: real, user: int, q1: int, q2: int)
    ensures SetQuantity(SetQuantity(cart, itemId, user, q1), itemId, user, q2) == SetQuantity(cart, itemId, user, q2)
  {
  }

  /** Setting a quantity of at least 1 keeps the table well formed: ids, owners and products are untouched. */
  lemma SetQuantityKeepsWellFormed(cart: seq<CartRow>, nextId: int, itemId: real, user: int, q: int)
    requires CartWellFormed(cart, nextId) && q >= 1
    ensures CartWellFormed(SetQuantity(cart, itemId, user, q), nextId)
  {
    var r := SetQuantity(cart, itemId, user, q);
    forall i | 0 <= i < |r|
      ensures r[i].id == cart[i].id && r[i].userId == cart[i].userId && r[i].productId == cart[i].productId
      ensures r[i].quantity >= 1
    {
    }
    assert CartIdsIncreasing(r) by {
      forall i, j | 0 <= i < j < |r| ensures r[i].id < r[j].id {
        assert r[i].id == cart[i].id && r[j].id == cart[j].id;
      }
    }
    assert CartPairsUnique(r) by {
      forall i, j | 0 <= i < j < |r| ensures r[i].userId != r[j].userId || r[i].productId != r[j].productId {
        assert r[i].userId == cart[i].userId && r[i].productId == cart[i].productId;
        assert r[j].userId == cart[j].userId && r[j].productId == cart[j].productId;
      }
    }
  }

  /** With a quantity of at least 1 the table stays well formed, and the owned item now holds exactly `q`. */
  lemma SetQuantityWellFormed(cart: seq<CartRow>, nextId: int, k: nat, q: int)
    requires CartWellFormed(cart, nextId) && q >= 1 && k < |cart|
    ensures var r := SetQuantity(cart, cart[k].id as real, cart[k].userId, q);
      && CartWellFormed(r, nextId)
      && QuantityOf(r, cart[k].userId, cart[k].productId) == q
  {
    SetQuantityKeepsWellFormed(cart, nextId, cart[k].id as real, cart[k].userId, q);
    CartItemOfFinds(SetQuantity(cart, cart[k].id as real, cart[k].userId, q), k);
  }

  /**
   * The handler. `req.json()` is not guarded here, so a body that does not
   * parse, or parses to `null`, fails inside the `try`.
   */
  method Post(db: Database, ctx: Context, body: JsonBody) returns (resp: Response)
    requires db.Valid()
    modifies db
    ensures db.Valid()
    ensures db.users == old(db.users) && db.nextUserId == old(db.nextUserId) && db.products == old(db.products)
    ensures db.wishlist == old(db.wishlist) && db.nextWishId == old(db.nextWishId)
    ensures db.nextCartId == old(db.nextCartId)
    ensures var s := GetSessionUser(ctx, old(db.users));
      (s.Anonymous? ==> resp == Unauthenticated) && (s.LookupFailed? ==> resp == UpdateFailed)
    ensures GetSessionUser(ctx, old(db.users)).Authenticated? && !body.JsonObject? ==> resp == UpdateFailed
    ensures GetSessionUser(ctx, old(db.users)).Authenticated? && body.JsonObject? && Rejected(body) ==> resp == InvalidData
    ensures var s := GetSessionUser(ctx, old(db.users));
      s.Authenticated? && body.JsonObject? && !Rejected(body) && SqlNumber(Field(body, "cartItemId")).None? ==>
        resp == UpdateFailed
    ensures var s := GetSessionUser(ctx, old(db.users));
      !(s.Authenticated? && body.JsonObject? && !Rejected(body) && SqlNumber(Field(body, "cartItemId")).Some?) ==>
        db.cart == old(db.cart)
    ensures var s := GetSessionUser(ctx, old(db.users));
      s.Authenticated? && body.JsonObject? && !Rejected(body) && SqlNumber(Field(body, "cartItemId")).Some? ==>
        && resp == Json(200, OkBody)
        && db.cart == SetQuantity(old(db.cart), SqlNumber(Field(body, "cartItemId")).value, s.user.id,
                                  Field(body, "quantity").n.Floor)
  {
    var s := GetSessionUser(ctx, db.users);
    if s.Anonymous? {
      return Unauthenticated;
    }
    if s.LookupFailed? || !body.JsonObject? {
      return UpdateFailed;
    }
    if Rejected(body) {
      return InvalidData;
    }
    var itemId := SqlNumber(Field(body, "cartItemId"));
    if itemId.None? {
      return UpdateFailed;
    }
    var q := Field(body, "quantity").n.Floor;
    SetQuantityKeepsWellFormed(db.cart, db.nextCartId, itemId.value, s.user.id, q);
    db.cart := SetQuantity(db.cart, itemId.value, s.user.id, q);
    resp := Json(200, OkBody);
  }

  /**
   * Whether the UPDATE of a body the written guard admits runs: MySQL can
   * store its quantity and compare its item id with the INT column.
   */
  predicate Bindable(body: JsonBody)
    requires Truthy(Field(body, "cartItemId"))
  {
    StoredQuantity(Field(body, "quantity")).Some? && SqlNumber(Field(body, "cartItemId")).Some?
  }

  /**
   * The handler as written: the guard of line 13, then the quantity bound
   * as it came. An admitted body whose quantity MySQL cannot store fails
   * the UPDATE, and the `catch` answers 500.
   */
  method PostAsWritten(db: Database, ctx: Context, body: JsonBody) returns (resp: Response)
    requires db.Valid()
    modifies db
    ensures db.Valid()
    ensures db.users == old(db.users) && db.nextUserId == old(db.nextUserId) && db.products == old(db.products)
    ensures db.wishlist == old(db.wishlist) && db.nextWishId == old(db.nextWishId)
    ensures db.nextCartId == old(db.nextCartId)
    ensures var s := GetSessionUser(ctx, old(db.users));
      (s.Anonymous? ==> resp == Unauthenticated) && (s.LookupFailed? ==> resp == UpdateFailed)
    ensures GetSessionUser(ctx, old(db.users)).Authenticated? && !body.JsonObject? ==> resp == UpdateFailed
    ensures GetSessionUser(ctx, old(db.users)).Authenticated? && body.JsonObject? && RejectedAsWritten(body) ==>
      resp == InvalidData
    ensures var s := GetSessionUser(ctx, old(db.users));
      s.Authenticated? && body.JsonObject? && !RejectedAsWritten(body) && !Bindable(body) ==>
        resp == UpdateFailed
    ensures var s := GetSessionUser(ctx, old(db.users));
      !(s.Authenticated? && body.JsonObject? && !RejectedAsWritten(body) && Bindable(body)) ==>
        db.cart == old(db.cart)
    ensures var s := GetSessionUser(ctx, old(db.users));
      s.Authenticated? && body.JsonObject? && !RejectedAsWritten(body) && Bindable(body) ==>
        && resp == Json(200, OkBody)
        && db.cart == SetQuantity(old(db.cart), SqlNumber(Field(body, "cartItemId")).value, s.user.id,
                                  StoredQuantity(Field(body, "quantity")).value)
  {
    var s := GetSessionUser(ctx, db.users);
    if s.Anonymous? {
      return Unauthenticated;
    }
    if s.LookupFailed? || !body.JsonObject? {
      return UpdateFailed;
    }
    if RejectedAsWritten(body) {
      return InvalidData;
    }
    var stored := StoredQuantity(Field(body, "quantity"));
    var itemId := SqlNumber(Field(body, "cartItemId"));
    if stored.None? || itemId.None? {
      return UpdateFailed;
    }
    AdmittedStoresAtLeastOne(body);
    SetQuantityKeepsWellFormed(db.cart, db.nextCartId, itemId.value, s.user.id, stored.value);
    db.cart := SetQuantity(db.cart, itemId.value, s.user.id, stored.value);
    resp := Json(200, OkBody);
  }
}
