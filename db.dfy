/**
 * The MySQL database as one object: the four tables and the next
 * AUTO_INCREMENT id of each table the core inserts into. Requests run one
 * after the other.
 */
module Db {
  import opened Tables

  class Database {
    var users: seq<UserRow>
    var nextUserId: int
    var products: map<int, Product>
    var cart: seq<CartRow>
    var nextCartId: int
    var wishlist: seq<WishRow>
    var nextWishId: int

    /** The table constraints: primary keys, `users.email` and the (user, product) keys unique. */
    ghost predicate Valid()
      reads this
    {
      && UsersWellFormed(users, nextUserId)
      && CartWellFormed(cart, nextCartId)
      && WishWellFormed(wishlist, nextWishId)
    }

    /** An empty store over a product catalogue. */
    constructor (catalogue: map<int, Product>)
      ensures Valid()
      ensures users == [] && cart == [] && wishlist == [] && products == catalogue
    {
      users, nextUserId := [], 1;
      products := catalogue;
      cart, nextCartId := [], 1;
      wishlist, nextWishId := [], 1;
    }
  }
}
