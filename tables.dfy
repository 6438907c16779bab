/**
 * The four MySQL tables the storefront reads and writes, as in-memory
 * values. `users`, `cart_items` and `wishlist_items` are sequences of rows
 * in primary-key order (AUTO_INCREMENT ids, strictly increasing and below
 * the next id to hand out); `products` is a map from product id to row,
 * which the modelled code only reads.
 */
module Tables {
  import opened Wrappers
  import opened JsValues

  datatype Role = Customer | Admin

  /** A `users` row; `role` is NULL-able in the database. */
  datatype UserRow = UserRow(id: int, email: string, passwordHash: string, fullName: string, role: Option<Role>)

  /** A `products` row (its id is the key of the map holding it). */
  datatype Product = Product(
    name: string, description: Option<string>, priceCents: int,
    imageUrl: Option<string>, category: string, isActive: int)

  /** A `cart_items` row; `(userId, productId)` is a unique key. */
  datatype CartRow = CartRow(id: int, userId: int, productId: int, quantity: int)

  /** A `wishlist_items` row; `(userId, productId)` is a unique key. */
  datatype WishRow = WishRow(id: int, userId: int, productId: int, createdAt: int)

  // ---- well-formed tables

  ghost predicate UsersWellFormed(users: seq<UserRow>, nextId: int) {
    && nextId >= 1
    && (forall i :: 0 <= i < |users| ==> 1 <= users[i].id < nextId)
    && (forall i, j :: 0 <= i < j < |users| ==> users[i].id < users[j].id)
    && (forall i, j :: 0 <= i < j < |users| ==> users[i].email != users[j].email)
  }

  ghost predicate CartIdsIncreasing(cart: seq<CartRow>) {
    forall i, j :: 0 <= i < j < |cart| ==> cart[i].id < cart[j].id
  }

  ghost predicate CartPairsUnique(cart: seq<CartRow>) {
    forall i, j :: 0 <= i < j < |cart| ==>
      cart[i].userId != cart[j].userId || cart[i].productId != cart[j].productId
  }

  /** Ids below `nextId`, in order, one row per (user, product), and every quantity at least 1. */
  ghost predicate CartWellFormed(cart: seq<CartRow>, nextId: int) {
    && nextId >= 1
    && (forall i :: 0 <= i < |cart| ==> 1 <= cart[i].id < nextId && cart[i].quantity >= 1)
    && CartIdsIncreasing(cart)
    && CartPairsUnique(cart)
  }

  ghost predicate WishWellFormed(wish: seq<WishRow>, nextId: int) {
    && nextId >= 1
    && (forall i :: 0 <= i < |wish| ==> 1 <= wish[i].id < nextId)
    && (forall i, j :: 0 <= i < j < |wish| ==> wish[i].id < wish[j].id)
    && (forall i, j :: 0 <= i < j < |wish| ==>
          wish[i].userId != wish[j].userId || wish[i].productId != wish[j].productId)
  }

  // ---- lookups (`SELECT ... WHERE ... LIMIT 1`)

  /** `SELECT ... FROM users WHERE id = ? LIMIT 1` with a numeric parameter. */
  function UserWithId(users: seq<UserRow>, id: real): (r: Option<UserRow>)
    ensures r.Some? ==> r.value in users && r.value.id as real == id
    ensures r.None? ==> forall u :: u in users ==> u.id as real != id
  {
    if users == [] then None
    else if users[0].id as real == id then Some(users[0])
    else UserWithId(users[1..], id)
  }

  /** `SELECT ... FROM users WHERE email = ? LIMIT 1`. */
  function UserWithEmail(users: seq<UserRow>, email: string): (r: Option<UserRow>)
    ensures r.Some? ==> r.value in users && r.value.email == email
    ensures r.None? ==> forall u :: u in users ==> u.email != email
  {
    if users == [] then None
    else if users[0].email == email then Some(users[0])
    else UserWithEmail(users[1..], email)
  }

  /** With unique ids, the lookup by id finds the one row carrying that id. */
  lemma UserWithIdFinds(users: seq<UserRow>, nextId: int, row: UserRow)
    requires UsersWellFormed(users, nextId)
    requires row in users
    ensures UserWithId(users, row.id as real) == Some(row)
  {
    var u := UserWithId(users, row.id as real).value;
    var i :| 0 <= i < |users| && users[i] == u;
    var j :| 0 <= j < |users| && users[j] == row;
  }

  /** With unique emails, the lookup by email finds the one row carrying that email. */
  lemma UserWithEmailFinds(users: seq<UserRow>, nextId: int, row: UserRow)
    requires UsersWellFormed(users, nextId)
    requires row in users
    ensures UserWithEmail(users, row.email) == Some(row)
  {
    var u := UserWithEmail(users, row.email).value;
    var i :| 0 <= i < |users| && users[i] == u;
    var j :| 0 <= j < |users| && users[j] == row;
    if i < j { assert users[i].email != users[j].email; }
    if j < i { assert users[j].email != users[i].email; }
  }

  /** Appending a row with the next id and a fresh email keeps the table well formed. */
  lemma AppendUserWellFormed(users: seq<UserRow>, nextId: int, row: UserRow)
    requires UsersWellFormed(users, nextId)
    requires row.id == nextId
    requires forall u :: u in users ==> u.email != row.email
    ensures UsersWellFormed(users + [row], nextId + 1)
  {
    var t := users + [row];
    forall i, j | 0 <= i < j < |t| ensures t[i].email != t[j].email {
      if j == |users| { assert t[i] in users; }
    }
  }

  /** The `(user_id, product_id)` key of a cart or wishlist row. */
  function CartKey(row: CartRow): (int, int) { (row.userId, row.productId) }
  function WishKey(row: WishRow): (int, int) { (row.userId, row.productId) }

  /** The index of the first row whose key is `(user, product)`, if there is one. */
  function IndexOfKey<R>(rows: seq<R>, key: R -> (int, int), user: int, product: int): (r: Option<nat>)
    ensures r.Some? ==> r.value < |rows| && key(rows[r.value]) == (user, product)
    ensures r.None? ==> forall i :: 0 <= i < |rows| ==> key(rows[i]) != (user, product)
  {
    if rows == [] then None
    else if key(rows[0]) == (user, product) then Some(0)
    else match IndexOfKey(rows[1..], key, user, product)
      case Some(k) => Some(k + 1)
      case None => None
  }

  /** The index of the cart row of `(user, product)`, if there is one. */
  function CartItemOf(cart: seq<CartRow>, user: int, product: int): (r: Option<nat>)
    ensures r.Some? ==> r.value < |cart| && cart[r.value].userId == user && cart[r.value].productId == product
    ensures r.None? ==> forall i :: 0 <= i < |cart| ==> cart[i].userId != user || cart[i].productId != product
  {
    IndexOfKey(cart, CartKey, user, product)
  }

  /** With unique pairs, the lookup finds the one row of its pair. */
  lemma CartItemOfFinds(cart: seq<CartRow>, k: nat)
    requires CartPairsUnique(cart) && k < |cart|
    ensures CartItemOf(cart, cart[k].userId, cart[k].productId) == Some(k)
  {
  }

  /** The quantity of `product` in the cart of `user`: the quantity of its row, or 0 without one. */
  function QuantityOf(cart: seq<CartRow>, user: int, product: int): (q: int)
    ensures CartItemOf(cart, user, product).None? ==> q == 0
  {
    match CartItemOf(cart, user, product)
    case Some(i) => cart[i].quantity
    case None => 0
  }

  /** The index of the wishlist row of `(user, product)`, if there is one. */
  function WishItemOf(wish: seq<WishRow>, user: int, product: int): (r: Option<nat>)
    ensures r.Some? ==> r.value < |wish| && wish[r.value].userId == user && wish[r.value].productId == product
    ensures r.None? ==> forall i :: 0 <= i < |wish| ==> wish[i].userId != user || wish[i].productId != product
  {
    IndexOfKey(wish, WishKey, user, product)
  }

  /** Whether `(user, product)` is on the wishlist. */
  predicate Wished(wish: seq<WishRow>, user: int, product: int) {
    WishItemOf(wish, user, product).Some?
  }

  /** The outcome of `SELECT 1 FROM products WHERE id = ? LIMIT 1` for a JS number. */
  datatype ProductLookup = Found(id: int) | NotFound | SqlError(message: string)

  /**
   * mysql2 writes a number parameter as `String(n)`, so an infinite id turns
   * into a bare word (`Infinity`), which MySQL rejects as an unknown column.
   */
  function FindProduct(products: map<int, Product>, n: JsNumber): (r: ProductLookup)
    ensures r.Found? ==> r.id in products && n == Finite(r.id as real)
    ensures n.Finite? && r.NotFound? ==> forall id :: id in products ==> n.r != id as real
    ensures r.SqlError? <==> !n.Finite?
  {
    match n
    case Finite(v) =>
      if IsInteger(v) && v.Floor in products then Found(v.Floor) else NotFound
    case NaN => SqlError("Unknown column 'NaN' in 'where clause'")
    case _ => SqlError("Unknown column 'Infinity' in 'where clause'")
  }
}
