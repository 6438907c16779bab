/**
 * The cart page's client component (`CartClient`): the item list, the
 * total in cents, and the −/+/delete buttons, each of which posts to a
 * cart route and then replaces the list with a fresh `GET /api/cart`.
 *
 * The browser talks to the routes of this model directly: `online` says
 * whether `fetch` reaches the server at all.
 */
module CartClient {
  import opened Wrappers
  import opened JsValues
  import opened Tables
  import opened Auth
  import opened Http
  import opened Db
  import CartAddRoute
  import CartUpdateRoute
  import CartRemoveRoute
  import CartListRoute

  /** `items.reduce((sum, r) => sum + pricecents * quantity, 0)`. */
  function TotalCents(items: seq<CartLine>): (t: int)
    ensures items == [] ==> t == 0
    ensures (forall k :: 0 <= k < |items| ==> items[k].priceCents >= 0 && items[k].quantity >= 0) ==> t >= 0
  {
    if items == [] then 0
    else
      var last := items[|items| - 1];
      TotalCents(items[..|items| - 1]) + last.priceCents * last.quantity
  }

  /** The total of two lists together is the sum of their totals. */
  lemma {:induction false} TotalConcat(a: seq<CartLine>, b: seq<CartLine>)
    ensures TotalCents(a + b) == TotalCents(a) + TotalCents(b)
  {
    if b == [] {
      assert a + b == a;
    } else {
      var b' := b[..|b| - 1];
      assert (a + b)[..|a + b| - 1] == a + b';
      assert (a + b)[|a + b| - 1] == b[|b| - 1];
      TotalConcat(a, b');
    }
  }

  /** `reloadCart()`: the listing when the answer is ok, the empty list otherwise. */
  function Reloaded(r: Response): (items: seq<CartLine>)
    ensures !IsOk(r) ==> items == []
    ensures IsOk(r) && r.body.CartLines? ==> items == r.body.lines
  {
    if IsOk(r) && r.body.CartLines? then r.body.lines else []
  }

  /** The value of the caller's cart in the tables: price times quantity over the rows the listing joins. */
  function CartValue(cart: seq<CartRow>, products: map<int, Product>, user: int): int {
    if cart == [] then 0
    else
      var last := cart[|cart| - 1];
      CartValue(cart[..|cart| - 1], products, user)
        + (if CartListRoute.Listed(last, products, user) then products[last.productId].priceCents * last.quantity else 0)
  }

  /** The total of the reloaded list is the value of the caller's cart, whatever the listing's order. */
  lemma {:induction false} ListingTotal(cart: seq<CartRow>, products: map<int, Product>, user: int)
    ensures TotalCents(CartListRoute.Lines(cart, products, user)) == CartValue(cart, products, user)
  {
    if cart != [] {
      var init, last := cart[..|cart| - 1], cart[|cart| - 1];
      ListingTotal(init, products, user);
      if CartListRoute.Listed(last, products, user) {
        var line := CartListRoute.LineOf(last, products[last.productId]);
        TotalConcat([line], CartListRoute.Lines(init, products, user));
        assert [line][..0] == [];
      }
    }
  }

  /** Without a session the reload answers 401, so the page shows an empty cart worth 0. */
  lemma ReloadedAnonymousIsEmpty(ctx: Context, users: seq<UserRow>, cart: seq<CartRow>, products: map<int, Product>)
    requires !GetSessionUser(ctx, users).Authenticated?
    ensures Reloaded(CartListRoute.Get(ctx, users, cart, products)) == []
    ensures TotalCents(Reloaded(CartListRoute.Get(ctx, users, cart, products))) == 0
  {
  }

  /** The body the buttons post for an item id, and with a quantity. */
  function ItemBody(id: int): JsonBody {
    JsonObject(map["cartItemId" := Num(id as real)])
  }

  function QuantityBody(id: int, q: int): JsonBody {
    JsonObject(map["cartItemId" := Num(id as real), "quantity" := Num(q as real)])
  }

  lemma BodiesRead(id: int, q: int)
    ensures Field(ItemBody(id), "cartItemId") == Num(id as real)
    ensures Field(QuantityBody(id, q), "cartItemId") == Num(id as real)
    ensures Field(QuantityBody(id, q), "quantity") == Num(q as real)
  {
    assert "quantity" != "cartItemId";
  }

  /** The update route's guard rejects the body `setQty` posts exactly when the id is 0 or the quantity below 1. */
  lemma QuantityBodyGuard(id: int, q: int)
    ensures CartUpdateRoute.Rejected(QuantityBody(id, q)) <==> id == 0 || q < 1
    ensures SqlNumber(Field(QuantityBody(id, q), "cartItemId")) == Some(id as real)
    ensures Field(QuantityBody(id, q), "quantity").n.Floor == q
  {
    BodiesRead(id, q);
    assert IsInteger(q as real);
  }

  /** The body the remove calls post names the item. */
  lemma ItemBodyNamesItem(id: int)
    ensures SqlNumber(Field(ItemBody(id), "cartItemId")) == Some(id as real)
    ensures Truthy(Field(ItemBody(id), "cartItemId")) <==> id != 0
  {
    BodiesRead(id, 0);
  }

  class CartView {
    var items: seq<CartLine>
    /** `busyCartItemId`: the item whose buttons are disabled. */
    var busy: Option<int>
    /** The value `busy` had while the last request was in flight. */
    ghost var busyInFlight: Option<int>

    constructor (initialItems: seq<CartLine>)
      ensures items == initialItems && busy == None
    {
      items := initialItems;
      busy := None;
      busyInFlight := None;
    }

    /** `setItems(await reloadCart())`. */
    method Reload(db: Database, ctx: Context)
      modifies this
      ensures items == Reloaded(CartListRoute.Get(ctx, db.users, db.cart, db.products))
      ensures busy == old(busy) && busyInFlight == old(busyInFlight)
    {
      items := Reloaded(CartListRoute.Get(ctx, db.users, db.cart, db.products));
    }

    /**
     * `addOne(productId)`: post the product to the add route, then reload.
     * Offline the request rejects and nothing after it runs.
     */
    method AddOne(db: Database, ctx: Context, productId: int, online: bool)
      requires db.Valid()
      modifies this, db
      ensures db.Valid() && busy == old(busy) && busyInFlight == old(busyInFlight)
      ensures db.users == old(db.users) && db.products == old(db.products) && db.wishlist == old(db.wishlist)
      ensures db.nextUserId == old(db.nextUserId) && db.nextWishId == old(db.nextWishId)
      ensures !online ==> items == old(items)
      ensures online ==> items == Reloaded(CartListRoute.Get(ctx, db.users, db.cart, db.products))
      ensures var s := GetSessionUser(ctx, old(db.users));
        online && s.Authenticated? && productId in db.products && productId != 0 ==>
          && db.cart == CartAddRoute.AddOne(old(db.cart), s.user.id, productId, old(db.nextCartId))
          && db.nextCartId == old(db.nextCartId) + 1
      ensures var s := GetSessionUser(ctx, old(db.users));
        !(online && s.Authenticated? && productId in db.products && productId != 0) ==>
          db.cart == old(db.cart) && db.nextCartId == old(db.nextCartId)
    {
      if online {
        if productId in db.products && productId != 0 {
          CartAddRoute.ProductBodyFound(db.products, productId);
        }
        var _ := CartAddRoute.Post(db, ctx, CartAddRoute.ProductBody(productId));
        Reload(db, ctx);
      }
    }

    /** `setQty(cartItemId, quantity)`: post both to the update route, then reload. */
    method SetQty(db: Database, ctx: Context, cartItemId: int, quantity: int, online: bool)
      requires db.Valid()
      modifies this, db
      ensures db.Valid() && busy == old(busy) && busyInFlight == old(busyInFlight)
      ensures db.users == old(db.users) && db.products == old(db.products) && db.wishlist == old(db.wishlist)
      ensures db.nextUserId == old(db.nextUserId) && db.nextWishId == old(db.nextWishId)
      ensures db.nextCartId == old(db.nextCartId)
      ensures !online ==> items == old(items) && db.cart == old(db.cart)
      ensures online ==> items == Reloaded(CartListRoute.Get(ctx, db.users, db.cart, db.products))
      ensures var s := GetSessionUser(ctx, old(db.users));
        online && s.Authenticated? && cartItemId != 0 && quantity >= 1 ==>
          db.cart == CartUpdateRoute.SetQuantity(old(db.cart), cartItemId as real, s.user.id, quantity)
      ensures cartItemId == 0 || quantity < 1 ==> db.cart == old(db.cart)
      ensures !GetSessionUser(ctx, old(db.users)).Authenticated? ==> db.cart == old(db.cart)
    {
      if online {
        QuantityBodyGuard(cartItemId, quantity);
        var _ := CartUpdateRoute.Post(db, ctx, QuantityBody(cartItemId, quantity));
        Reload(db, ctx);
      }
    }

    /** `removeItem(cartItemId)`: post the id to the remove route, then reload. */
    method RemoveItem(db: Database, ctx: Context, cartItemId: int, online: bool)
      requires db.Valid()
      modifies this, db
      ensures db.Valid() && busy == old(busy) && busyInFlight == old(busyInFlight)
      ensures db.users == old(db.users) && db.products == old(db.products) && db.wishlist == old(db.wishlist)
      ensures db.nextUserId == old(db.nextUserId) && db.nextWishId == old(db.nextWishId)
      ensures db.nextCartId == old(db.nextCartId)
      ensures !online ==> items == old(items) && db.cart == old(db.cart)
      ensures online ==> items == Reloaded(CartListRoute.Get(ctx, db.users, db.cart, db.products))
      ensures var s := GetSessionUser(ctx, old(db.users));
        online && s.Authenticated? && cartItemId != 0 ==>
          db.cart == CartRemoveRoute.DeleteOwned(old(db.cart), cartItemId as real, s.user.id)
      ensures cartItemId == 0 ==> db.cart == old(db.cart)
      ensures !GetSessionUser(ctx, old(db.users)).Authenticated? ==> db.cart == old(db.cart)
    {
      if online {
        ItemBodyNamesItem(cartItemId);
        var _ := CartRemoveRoute.Post(db, ctx, ItemBody(cartItemId));
        Reload(db, ctx);
      }
    }

    /**
     * The "−" button: removes the item at quantity 1 or less, otherwise
     * sets its quantity one lower; its buttons are disabled meanwhile.
     */
    method Minus(db: Database, ctx: Context, item: CartLine, online: bool)
      requires db.Valid()
      modifies this, db
      ensures db.Valid() && busy == None && busyInFlight == Some(item.cartItemId)
      ensures db.users == old(db.users) && db.products == old(db.products) && db.wishlist == old(db.wishlist)
      ensures db.nextUserId == old(db.nextUserId) && db.nextWishId == old(db.nextWishId)
      ensures db.nextCartId == old(db.nextCartId)
      ensures !online ==> items == old(items) && db.cart == old(db.cart)
      ensures online ==> items == Reloaded(CartListRoute.Get(ctx, db.users, db.cart, db.products))
      ensures var s := GetSessionUser(ctx, old(db.users));
        online && s.Authenticated? && item.cartItemId != 0 && item.quantity <= 1 ==>
          db.cart == CartRemoveRoute.DeleteOwned(old(db.cart), item.cartItemId as real, s.user.id)
      ensures var s := GetSessionUser(ctx, old(db.users));
        online && s.Authenticated? && item.cartItemId != 0 && item.quantity > 1 ==>
          db.cart == CartUpdateRoute.SetQuantity(old(db.cart), item.cartItemId as real, s.user.id, item.quantity - 1)
      ensures !GetSessionUser(ctx, old(db.users)).Authenticated? ==> db.cart == old(db.cart)
    {
      busy := Some(item.cartItemId);
      busyInFlight := busy;
      var q := item.quantity - 1;
      if item.quantity <= 1 {
        RemoveItem(db, ctx, item.cartItemId, online);
      } else {
        assert q >= 1;
        SetQty(db, ctx, item.cartItemId, q, online);
      }
      busy := None;
    }

    /** The "+" button: one more of the item's product. */
    method Plus(db: Database, ctx: Context, item: CartLine, online: bool)
      requires db.Valid()
      modifies this, db
      ensures db.Valid() && busy == None && busyInFlight == Some(item.cartItemId)
      ensures db.users == old(db.users) && db.products == old(db.products) && db.wishlist == old(db.wishlist)
      ensures db.nextUserId == old(db.nextUserId) && db.nextWishId == old(db.nextWishId)
      ensures !online ==> items == old(items)
      ensures online ==> items == Reloaded(CartListRoute.Get(ctx, db.users, db.cart, db.products))
      ensures var s := GetSessionUser(ctx, old(db.users));
        online && s.Authenticated? && item.productId in db.products && item.productId != 0 ==>
          && db.cart == CartAddRoute.AddOne(old(db.cart), s.user.id, item.productId, old(db.nextCartId))
          && db.nextCartId == old(db.nextCartId) + 1
      ensures var s := GetSessionUser(ctx, old(db.users));
        !(online && s.Authenticated? && item.productId in db.products && item.productId != 0) ==>
          db.cart == old(db.cart) && db.nextCartId == old(db.nextCartId)
    {
      busy := Some(item.cartItemId);
      busyInFlight := busy;
      AddOne(db, ctx, item.productId, online);
      busy := None;
    }

    /** The "Supprimer" button. */
    method Delete(db: Database, ctx: Context, item: CartLine, online: bool)
      requires db.Valid()
      modifies this, db
      ensures db.Valid() && busy == None && busyInFlight == Some(item.cartItemId)
      ensures db.users == old(db.users) && db.products == old(db.products) && db.wishlist == old(db.wishlist)
      ensures db.nextUserId == old(db.nextUserId) && db.nextWishId == old(db.nextWishId)
      ensures db.nextCartId == old(db.nextCartId)
      ensures !online ==> items == old(items) && db.cart == old(db.cart)
      ensures online ==> items == Reloaded(CartListRoute.Get(ctx, db.users, db.cart, db.products))
      ensures var s := GetSessionUser(ctx, old(db.users));
        online && s.Authenticated? && item.cartItemId != 0 ==>
          db.cart == CartRemoveRoute.DeleteOwned(old(db.cart), item.cartItemId as real, s.user.id)
      ensures !GetSessionUser(ctx, old(db.users)).Authenticated? ==> db.cart == old(db.cart)
    {
      busy := Some(item.cartItemId);
      busyInFlight := busy;
      RemoveItem(db, ctx, item.cartItemId, online);
      busy := None;
    }
  }
}
