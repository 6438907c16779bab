/** `GET /api/cart`: the caller's cart items joined with their products, newest item first. */
module CartListRoute {
  import opened Wrappers
  import opened Tables
  import opened Auth
  import opened Http

  /** Whether the query returns `row`: it is the caller's, and the inner join finds its product. */
  predicate Listed(row: CartRow, products: map<int, Product>, user: int) {
    row.userId == user && row.productId in products
  }

  /** The projection of a joined row: quantity from the item, the rest from the product. */
  function LineOf(row: CartRow, p: Product): CartLine {
    CartLine(row.id, row.quantity, row.productId, p.name, p.priceCents, p.imageUrl)
  }

  /** The listed rows of `cart` projected, in descending table order. */
  function Lines(cart: seq<CartRow>, products: map<int, Product>, user: int): (r: seq<CartLine>)
    ensures |r| <= |cart|
    ensures forall k :: 0 <= k < |cart| && Listed(cart[k], products, user) ==>
      LineOf(cart[k], products[cart[k].productId]) in r
    ensures forall line :: line in r ==>
      exists k :: 0 <= k < |cart| && Listed(cart[k], products, user) && line == LineOf(cart[k], products[cart[k].productId])
  {
    if cart == [] then []
    else
      var init, last := cart[..|cart| - 1], cart[|cart| - 1];
      var rest := Lines(init, products, user);
      assert forall k :: 0 <= k < |init| ==> init[k] == cart[k];
      if Listed(last, products, user) then [LineOf(last, products[last.productId])] + rest else rest
  }

  predicate DescendingIds(lines: seq<CartLine>) {
    forall i, j :: 0 <= i < j < |lines| ==> lines[i].cartItemId > lines[j].cartItemId
  }

  /** Following the table's id order backwards, the listing is in strictly descending item id. */
  lemma {:induction false} LinesDescending(cart: seq<CartRow>, products: map<int, Product>, user: int)
    requires CartIdsIncreasing(cart)
    ensures DescendingIds(Lines(cart, products, user))
  {
    if cart != [] {
      var init, last := cart[..|cart| - 1], cart[|cart| - 1];
      assert CartIdsIncreasing(init);
      LinesDescending(init, products, user);
      var rest := Lines(init, products, user);
      forall line | line in rest ensures line.cartItemId < last.id {
        var k :| 0 <= k < |init| && Listed(init[k], products, user) && line == LineOf(init[k], products[init[k].productId]);
        assert init[k] == cart[k];
      }
      if Listed(last, products, user) {
        PrependDescending(LineOf(last, products[last.productId]), rest);
      }
    }
  }

  lemma PrependDescending(line: CartLine, rest: seq<CartLine>)
    requires DescendingIds(rest)
    requires forall l :: l in rest ==> l.cartItemId < line.cartItemId
    ensures DescendingIds([line] + rest)
  {
    var r := [line] + rest;
    forall i, j | 0 <= i < j < |r| ensures r[i].cartItemId > r[j].cartItemId {
      assert r[j] == rest[j - 1] && rest[j - 1] in rest;
      if i > 0 {
        assert r[i] == rest[i - 1];
      }
    }
  }

  /** Rows of other users never reach the listing. */
  lemma {:induction false} LinesIgnoreOtherUsers(cart: seq<CartRow>, products: map<int, Product>, user: int, row: CartRow)
    requires row.userId != user
    ensures Lines(cart + [row], products, user) == Lines(cart, products, user)
  {
    assert (cart + [row])[..|cart|] == cart;
  }

  /** The handler; the session lookup runs outside any `try`. */
  function Get(ctx: Context, users: seq<UserRow>, cart: seq<CartRow>, products: map<int, Product>): (r: Response)
    ensures GetSessionUser(ctx, users).Anonymous? ==> r == Unauthenticated
    ensures GetSessionUser(ctx, users).LookupFailed? ==> r == Crash
    ensures GetSessionUser(ctx, users).Authenticated? ==>
      r.status == 200 && r.body.CartLines? && r.body.lines == Lines(cart, products, GetSessionUser(ctx, users).user.id)
  {
    match GetSessionUser(ctx, users)
    case Anonymous => Unauthenticated
    case LookupFailed(_) => Crash
    case Authenticated(user) => Json(200, CartLines(Lines(cart, products, user.id)))
  }
}
