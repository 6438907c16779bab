/** `GET /api/wishlist`: the caller's wishlist joined with the products, newest first. */
module WishlistListRoute {
  import opened Wrappers
  import opened Tables
  import opened Auth
  import opened Http

  /** Whether the query returns `row`: it is the caller's, and the inner join finds its product. */
  predicate Listed(row: WishRow, products: map<int, Product>, user: int) {
    row.userId == user && row.productId in products
  }

  /** `WHERE w.user_id = ?` with the inner join: the listed rows, in table order. */
  function Joined(wish: seq<WishRow>, products: map<int, Product>, user: int): (r: seq<WishRow>)
    ensures |r| <= |wish|
    ensures forall row :: row in r <==> row in wish && Listed(row, products, user)
  {
    if wish == [] then []
    else if Listed(wish[0], products, user) then [wish[0]] + Joined(wish[1..], products, user)
    else Joined(wish[1..], products, user)
  }

  /** `ORDER BY w.created_at DESC`. */
  ghost predicate NewestFirst(rows: seq<WishRow>) {
    forall i, j :: 0 <= i < j < |rows| ==> rows[i].createdAt >= rows[j].createdAt
  }

  lemma PrependNewest(x: WishRow, rest: seq<WishRow>)
    requires NewestFirst(rest)
    requires forall y :: y in rest ==> y.createdAt <= x.createdAt
    ensures NewestFirst([x] + rest)
  {
    var r := [x] + rest;
    forall i, j | 0 <= i < j < |r| ensures r[i].createdAt >= r[j].createdAt {
      assert r[j] == rest[j - 1] && rest[j - 1] in rest;
      if i > 0 { assert r[i] == rest[i - 1]; }
    }
  }

  /** In a newest-first list, no later row is newer than the first. */
  lemma HeadIsNewest(sorted: seq<WishRow>)
    requires NewestFirst(sorted) && sorted != []
    ensures forall y :: y in sorted[1..] ==> y.createdAt <= sorted[0].createdAt
    ensures NewestFirst(sorted[1..])
  {
    var tail := sorted[1..];
    forall i, j | 0 <= i < j < |tail| ensures tail[i].createdAt >= tail[j].createdAt {
      assert tail[i] == sorted[i + 1] && tail[j] == sorted[j + 1];
    }
    forall y | y in sorted[1..] ensures y.createdAt <= sorted[0].createdAt {
      var k :| 0 <= k < |sorted[1..]| && sorted[1..][k] == y;
      assert y == sorted[k + 1];
    }
  }

  /** Puts `row` before the first row that is not newer than it. */
  function InsertByDate(row: WishRow, sorted: seq<WishRow>): (r: seq<WishRow>)
    requires NewestFirst(sorted)
    ensures NewestFirst(r)
    ensures multiset(r) == multiset(sorted) + multiset{row}
    ensures forall y :: y in r ==> y in sorted || y == row
  {
    if sorted == [] || row.createdAt >= sorted[0].createdAt then
      [row] + sorted
    else
      var tail := sorted[1..];
      HeadIsNewest(sorted);
      var rest := InsertByDate(row, tail);
      PrependNewest(sorted[0], rest);
      assert sorted == [sorted[0]] + tail;
      [sorted[0]] + rest
  }

  /** The rows, newest first; rows of the same date keep no particular order. */
  function ByDate(rows: seq<WishRow>): (r: seq<WishRow>)
    ensures NewestFirst(r)
    ensures multiset(r) == multiset(rows)
  {
    if rows == [] then []
    else
      assert rows == [rows[0]] + rows[1..];
      InsertByDate(rows[0], ByDate(rows[1..]))
  }

  /** The `rows.map` projection of one joined row. */
  function EntryOf(row: WishRow, p: Product): (e: WishEntry)
    ensures e.id == row.id && e.productId == row.productId
    ensures e.inStock <==> p.isActive != 0
  {
    WishEntry(row.id, row.productId, p.name, p.description, p.priceCents, p.imageUrl, p.category, p.isActive != 0)
  }

  /** Sorting keeps exactly the rows it was given. */
  lemma ByDateKeepsRows(rows: seq<WishRow>)
    ensures forall y :: y in ByDate(rows) <==> y in rows
  {
    var r := ByDate(rows);
    forall y ensures y in r <==> y in rows {
      assert y in r <==> y in multiset(r);
      assert y in rows <==> y in multiset(rows);
    }
  }

  /** The listed rows, newest first, projected. */
  function Entries(wish: seq<WishRow>, products: map<int, Product>, user: int): (r: seq<WishEntry>)
  {
    var rows := ByDate(Joined(wish, products, user));
    ByDateKeepsRows(Joined(wish, products, user));
    assert forall i :: 0 <= i < |rows| ==> rows[i].productId in products by {
      forall i | 0 <= i < |rows| ensures rows[i].productId in products {
        assert rows[i] in rows;
      }
    }
    seq(|rows|, i requires 0 <= i < |rows| => EntryOf(rows[i], products[rows[i].productId]))
  }

  /** The entries are exactly the caller's rows whose product exists, projected, one entry per row. */
  lemma EntriesAreTheCallersRows(wish: seq<WishRow>, products: map<int, Product>, user: int)
    ensures |Entries(wish, products, user)| == |Joined(wish, products, user)|
    ensures var r := Entries(wish, products, user);
      && (forall e :: e in r ==>
            exists row :: row in wish && Listed(row, products, user) && e == EntryOf(row, products[row.productId]))
      && (forall row :: row in wish && Listed(row, products, user) ==> EntryOf(row, products[row.productId]) in r)
  {
    var rows := ByDate(Joined(wish, products, user));
    ByDateKeepsRows(Joined(wish, products, user));
    var r := Entries(wish, products, user);
    assert |rows| == |multiset(rows)| == |multiset(Joined(wish, products, user))|;
    forall e | e in r
      ensures exists row :: row in wish && Listed(row, products, user) && e == EntryOf(row, products[row.productId])
    {
      var i :| 0 <= i < |r| && r[i] == e;
      assert rows[i] in rows;
    }
    forall row | row in wish && Listed(row, products, user)
      ensures EntryOf(row, products[row.productId]) in r
    {
      var i :| 0 <= i < |rows| && rows[i] == row;
      assert r[i] == EntryOf(row, products[row.productId]);
    }
  }

  /** The entries follow the rows in `ORDER BY created_at DESC` order. */
  lemma EntriesNewestFirst(wish: seq<WishRow>, products: map<int, Product>, user: int)
    ensures var rows := ByDate(Joined(wish, products, user));
      && NewestFirst(rows)
      && |Entries(wish, products, user)| == |rows|
      && forall i :: 0 <= i < |rows| ==> Entries(wish, products, user)[i].id == rows[i].id
  {
  }

  /** The handler; the session lookup runs outside any `try`. */
  function Get(ctx: Context, users: seq<UserRow>, wish: seq<WishRow>, products: map<int, Product>): (r: Response)
    ensures GetSessionUser(ctx, users).Anonymous? ==> r == Unauthenticated
    ensures GetSessionUser(ctx, users).LookupFailed? ==> r == Crash
    ensures GetSessionUser(ctx, users).Authenticated? ==>
      r.status == 200 && r.body.WishEntries?
      && r.body.entries == Entries(wish, products, GetSessionUser(ctx, users).user.id)
  {
    match GetSessionUser(ctx, users)
    case Anonymous => Unauthenticated
    case LookupFailed(_) => Crash
    case Authenticated(user) => Json(200, WishEntries(Entries(wish, products, user.id)))
  }
}
