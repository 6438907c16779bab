/** `GET /api/me/counts`: the badge numbers of the header. */
module CountsRoute {
  import opened Wrappers
  import opened Tables
  import opened Auth
  import opened Http
  import CartAddRoute
  import WishlistToggleRoute

  /** `COALESCE(SUM(quantity), 0) ... WHERE user_id = ?`. */
  function CartCount(cart: seq<CartRow>, user: int): (n: int)
    ensures (forall k :: 0 <= k < |cart| ==> cart[k].quantity >= 1) ==> n >= 0
    ensures (forall k :: 0 <= k < |cart| ==> cart[k].userId != user) ==> n == 0
  {
    if cart == [] then 0
    else
      var last := cart[|cart| - 1];
      CartCount(cart[..|cart| - 1], user) + (if last.userId == user then last.quantity else 0)
  }

  /** `COUNT(*) ... WHERE user_id = ?`. */
  function WishCount(wish: seq<WishRow>, user: int): (n: nat)
    ensures n <= |wish|
    ensures (forall k :: 0 <= k < |wish| ==> wish[k].userId != user) ==> n == 0
  {
    if wish == [] then 0
    else WishCount(wish[..|wish| - 1], user) + (if wish[|wish| - 1].userId == user then 1 else 0)
  }

  /** The sum splits over a concatenation. */
  lemma {:induction false} CartCountConcat(a: seq<CartRow>, b: seq<CartRow>, user: int)
    ensures CartCount(a + b, user) == CartCount(a, user) + CartCount(b, user)
  {
    if b == [] {
      assert a + b == a;
    } else {
      var b' := b[..|b| - 1];
      assert (a + b)[..|a + b| - 1] == a + b';
      assert (a + b)[|a + b| - 1] == b[|b| - 1];
      CartCountConcat(a, b', user);
    }
  }

  /** The count splits over a concatenation. */
  lemma {:induction false} WishCountConcat(a: seq<WishRow>, b: seq<WishRow>, user: int)
    ensures WishCount(a + b, user) == WishCount(a, user) + WishCount(b, user)
  {
    if b == [] {
      assert a + b == a;
    } else {
      var b' := b[..|b| - 1];
      assert (a + b)[..|a + b| - 1] == a + b';
      assert (a + b)[|a + b| - 1] == b[|b| - 1];
      WishCountConcat(a, b', user);
    }
  }

  /** A row of another user, wherever it sits, changes neither count. */
  lemma CountsIgnoreOtherUsers(a: seq<CartRow>, row: CartRow, b: seq<CartRow>,
                               c: seq<WishRow>, w: WishRow, d: seq<WishRow>, user: int)
    requires row.userId != user && w.userId != user
    ensures CartCount(a + [row] + b, user) == CartCount(a + b, user)
    ensures WishCount(c + [w] + d, user) == WishCount(c + d, user)
  {
    CartCountConcat(a + [row], b, user);
    CartCountConcat(a, [row], user);
    CartCountConcat(a, b, user);
    WishCountConcat(c + [w], d, user);
    WishCountConcat(c, [w], user);
    WishCountConcat(c, d, user);
  }

  /** Adding one product to the caller's cart raises the caller's count by exactly 1, and nobody else's. */
  lemma CartCountAfterAdd(cart: seq<CartRow>, nextId: int, user: int, product: int, u: int)
    requires CartWellFormed(cart, nextId)
    ensures CartCount(CartAddRoute.AddOne(cart, user, product, nextId), u)
            == CartCount(cart, u) + (if u == user then 1 else 0)
  {
    var r := CartAddRoute.AddOne(cart, user, product, nextId);
    match CartItemOf(cart, user, product)
    case Some(i) =>
      assert cart == cart[..i] + [cart[i]] + cart[i + 1..];
      assert r == cart[..i] + [r[i]] + cart[i + 1..];
      CartCountConcat(cart[..i] + [cart[i]], cart[i + 1..], u);
      CartCountConcat(cart[..i], [cart[i]], u);
      CartCountConcat(cart[..i] + [r[i]], cart[i + 1..], u);
      CartCountConcat(cart[..i], [r[i]], u);
      assert CartCount([r[i]], u) == CartCount([cart[i]], u) + (if u == user then 1 else 0) by {
        assert [r[i]][..0] == [] && [cart[i]][..0] == [];
      }
    case None =>
      CartCountConcat(cart, [CartRow(nextId, user, product, 1)], u);
      assert [CartRow(nextId, user, product, 1)][..0] == [];
  }

  /** A toggle moves the caller's wishlist count by exactly one, up or down, and nobody else's. */
  lemma WishCountAfterToggle(wish: seq<WishRow>, nextId: int, user: int, product: int, now: int, u: int)
    requires WishWellFormed(wish, nextId)
    ensures WishCount(WishlistToggleRoute.Toggle(wish, user, product, nextId, now), u)
            == WishCount(wish, u) + (if u != user then 0 else if Wished(wish, user, product) then -1 else 1)
  {
    match WishItemOf(wish, user, product)
    case Some(i) =>
      assert wish == wish[..i] + [wish[i]] + wish[i + 1..];
      WishCountConcat(wish[..i] + [wish[i]], wish[i + 1..], u);
      WishCountConcat(wish[..i], [wish[i]], u);
      WishCountConcat(wish[..i], wish[i + 1..], u);
      assert [wish[i]][..0] == [];
    case None =>
      var row := WishRow(nextId, user, product, now);
      WishCountConcat(wish, [row], u);
      assert [row][..0] == [];
  }

  /** The handler; the session lookup runs outside any `try`, so a failing lookup is an unhandled error. */
  function Get(ctx: Context, users: seq<UserRow>, cart: seq<CartRow>, wish: seq<WishRow>): (r: Response)
    ensures GetSessionUser(ctx, users).Anonymous? ==> r == Json(200, Counts(0, 0))
    ensures GetSessionUser(ctx, users).LookupFailed? ==> r == Crash
    ensures GetSessionUser(ctx, users).Authenticated? ==>
      var u := GetSessionUser(ctx, users).user.id;
      r == Json(200, Counts(CartCount(cart, u), WishCount(wish, u)))
  {
    match GetSessionUser(ctx, users)
    case Anonymous => Json(200, Counts(0, 0))
    case LookupFailed(_) => Crash
    case Authenticated(user) => Json(200, Counts(CartCount(cart, user.id), WishCount(wish, user.id)))
  }
}
