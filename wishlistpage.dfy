/**
 * The account wishlist page (`WishlistPage`): the initial load, the
 * optimistic removal with rollback, and adding an entry to the cart.
 *
 * `DELETE /api/wishlist/[id]` is not part of this model: its outcome,
 * like the outcome of the page's own `GET /api/wishlist` calls, is a
 * parameter; `POST /api/cart/add` is the route of this model.
 */
module WishlistPage {
  import opened Wrappers
  import opened JsValues
  import opened Auth
  import opened Http
  import opened Db
  import CartAddRoute

  /** What an awaited `fetch` gives: a rejection (network failure) or a response. */
  datatype Fetch = Rejected | Answered(response: Response)

  datatype Variant = Success | Info | Danger
  datatype Toast = Toast(title: string, message: string, variant: Variant)

  /** `favorites.filter(item => item.id !== id)`. */
  function Without(entries: seq<WishEntry>, id: int): (r: seq<WishEntry>)
    ensures |r| <= |entries|
    ensures forall e :: e in r <==> e in entries && e.id != id
  {
    if entries == [] then []
    else if entries[0].id == id then Without(entries[1..], id)
    else [entries[0]] + Without(entries[1..], id)
  }

  /** The filter keeps the order of what it keeps: it distributes over concatenation. */
  lemma {:induction false} WithoutConcat(a: seq<WishEntry>, b: seq<WishEntry>, id: int)
    ensures Without(a + b, id) == Without(a, id) + Without(b, id)
  {
    if a != [] {
      assert (a + b)[1..] == a[1..] + b;
      WithoutConcat(a[1..], b, id);
    } else {
      assert a + b == b;
    }
  }

  /** Removing an id nobody carries changes nothing. */
  lemma {:induction false} WithoutAbsent(entries: seq<WishEntry>, id: int)
    requires forall k :: 0 <= k < |entries| ==> entries[k].id != id
    ensures Without(entries, id) == entries
  {
    if entries != [] {
      WithoutAbsent(entries[1..], id);
    }
  }

  /** The list in an ok answer. */
  function ListOf(r: Response): seq<WishEntry> {
    if r.body.WishEntries? then r.body.entries else []
  }

  const NetworkError: Toast := Toast("Erreur", "Suppression impossible (réseau).", Danger)
  const RemoveError: Toast := Toast("Erreur", "Suppression impossible.", Danger)
  const Removed: Toast := Toast("Retiré des favoris", "Article supprimé.", Info)
  const AddNetworkError: Toast := Toast("Erreur", "Erreur réseau.", Danger)
  const DefaultAddError: string := "Impossible d'ajouter au panier."

  /** The toast of a successful add: the product's name. */
  function Added(name: string): Toast {
    Toast("Ajouté au panier", name, Success)
  }

  /** The toast of a failed add: the answer's `message` field, or the default text. */
  function AddErrorToast(r: Response): (t: Toast)
    ensures t.variant == Danger && t.title == "Erreur"
    ensures r.body.ErrorWithMessage? ==> t.message == r.body.message
    ensures !r.body.ErrorWithMessage? ==> t.message == DefaultAddError
  {
    Toast("Erreur", if r.body.ErrorWithMessage? then r.body.message else DefaultAddError, Danger)
  }

  /** `fetch("/api/cart/add", ...)` with the entry's product id, answered by the add route. */
  method PostProduct(db: Database, ctx: Context, productId: int) returns (res: Response)
    requires db.Valid()
    modifies db
    ensures db.Valid()
    ensures db.users == old(db.users) && db.products == old(db.products) && db.wishlist == old(db.wishlist)
    ensures db.nextUserId == old(db.nextUserId) && db.nextWishId == old(db.nextWishId)
    ensures var s := GetSessionUser(ctx, old(db.users));
      s.Authenticated? && productId in db.products && productId != 0 ==>
        && res == Json(200, OkBody)
        && db.cart == CartAddRoute.AddOne(old(db.cart), s.user.id, productId, old(db.nextCartId))
        && db.nextCartId == old(db.nextCartId) + 1
    ensures var s := GetSessionUser(ctx, old(db.users));
      !(s.Authenticated? && productId in db.products && productId != 0) ==> db.nextCartId == old(db.nextCartId)
    ensures GetSessionUser(ctx, old(db.users)).Anonymous? ==> res.status == 401 && db.cart == old(db.cart)
    ensures var s := GetSessionUser(ctx, old(db.users));
      s.LookupFailed? ==> res == CartAddRoute.Failed(s.message) && db.cart == old(db.cart)
    ensures var s := GetSessionUser(ctx, old(db.users));
      s.Authenticated? && !(productId in db.products && productId != 0) ==>
        res == CartAddRoute.InvalidProduct && db.cart == old(db.cart)
  {
    if productId in db.products && productId != 0 {
      CartAddRoute.ProductBodyFound(db.products, productId);
    }
    res := CartAddRoute.Post(db, ctx, CartAddRoute.ProductBody(productId));
  }

  class Page {
    var favorites: seq<WishEntry>
    var loading: bool
    var isGuest: bool
    var addingProductId: Option<int>
    var toast: Option<Toast>
    /** Whether the page asked the router to go to the login page. */
    var redirectedToLogin: bool
    /** The value of `addingProductId` while the add request was in flight. */
    ghost var addingInFlight: Option<int>

    constructor ()
      ensures favorites == [] && loading && !isGuest && addingProductId == None
      ensures toast == None && !redirectedToLogin
    {
      favorites, loading, isGuest := [], true, false;
      addingProductId, toast, redirectedToLogin := None, None, false;
      addingInFlight := None;
    }

    /**
     * The mount effect: 401 makes the page a guest page, any other failure
     * leaves the list as it was, and `loading` ends in every case (a
     * rejected fetch escapes the `try`, past the `finally`).
     */
    method Load(answer: Fetch)
      modifies this
      ensures !loading
      ensures answer.Rejected? ==> favorites == old(favorites) && isGuest == old(isGuest)
      ensures answer.Answered? && answer.response.status == 401 ==> isGuest && favorites == old(favorites)
      ensures answer.Answered? && answer.response.status != 401 && !IsOk(answer.response) ==>
        favorites == old(favorites) && isGuest == old(isGuest)
      ensures answer.Answered? && answer.response.status != 401 && IsOk(answer.response) ==>
        favorites == ListOf(answer.response) && isGuest == old(isGuest)
      ensures addingProductId == old(addingProductId) && toast == old(toast) && redirectedToLogin == old(redirectedToLogin)
    {
      if answer.Answered? {
        var res := answer.response;
        if res.status == 401 {
          isGuest := true;
        } else if IsOk(res) {
          favorites := ListOf(res);
        }
      }
      loading := false;
    }

    /**
     * `removeFavorite(id)`: drop the entries with that id at once; put the
     * old list back when the request fails; on a 401 keep the filtered
     * list and go to the login page; on another failure put the old list
     * back and then reload it (`reload` is the outcome of that GET).
     */
    method RemoveFavorite(id: int, delete: Fetch, reload: Fetch)
      modifies this
      ensures delete.Rejected? ==> favorites == old(favorites) && toast == Some(NetworkError)
      ensures delete.Answered? && delete.response.status == 401 ==>
        favorites == Without(old(favorites), id) && redirectedToLogin && toast == old(toast)
      ensures delete.Answered? && delete.response.status != 401 && !IsOk(delete.response) ==>
        && toast == Some(RemoveError)
        && favorites == (if reload.Answered? && IsOk(reload.response) then ListOf(reload.response) else old(favorites))
      ensures delete.Answered? && delete.response.status != 401 && IsOk(delete.response) ==>
        favorites == Without(old(favorites), id) && toast == Some(Removed)
      ensures !(delete.Answered? && delete.response.status == 401) ==> redirectedToLogin == old(redirectedToLogin)
      ensures loading == old(loading) && isGuest == old(isGuest) && addingProductId == old(addingProductId)
    {
      var prev := favorites;
      favorites := Without(favorites, id);
      match delete
      case Rejected =>
        favorites := prev;
        toast := Some(NetworkError);
      case Answered(res) =>
        if res.status == 401 {
          redirectedToLogin := true;
        } else if !IsOk(res) {
          favorites := prev;
          toast := Some(RemoveError);
          if reload.Answered? && IsOk(reload.response) {
            favorites := ListOf(reload.response);
          }
        } else {
          toast := Some(Removed);
        }
    }

    /**
     * `addToCart(product)`: nothing at all for an out-of-stock entry;
     * otherwise post the product to the cart, with `addingProductId` set
     * while the request is in flight and cleared afterwards.
     */
    method AddToCart(db: Database, ctx: Context, product: WishEntry, online: bool)
      requires db.Valid()
      modifies this, db
      ensures db.Valid()
      ensures !product.inStock ==>
        && favorites == old(favorites) && toast == old(toast) && addingProductId == old(addingProductId)
        && redirectedToLogin == old(redirectedToLogin)
        && db.cart == old(db.cart) && db.nextCartId == old(db.nextCartId)
      ensures product.inStock ==> addingProductId == None && addingInFlight == Some(product.productId)
      ensures product.inStock && !online ==>
        toast == Some(AddNetworkError) && db.cart == old(db.cart) && redirectedToLogin == old(redirectedToLogin)
      ensures var s := GetSessionUser(ctx, old(db.users));
        product.inStock && online && s.Authenticated? && product.productId in db.products && product.productId != 0 ==>
          && db.cart == CartAddRoute.AddOne(old(db.cart), s.user.id, product.productId, old(db.nextCartId))
          && db.nextCartId == old(db.nextCartId) + 1
          && toast == Some(Added(product.name)) && redirectedToLogin == old(redirectedToLogin)
      ensures var s := GetSessionUser(ctx, old(db.users));
        !(product.inStock && online && s.Authenticated? && product.productId in db.products && product.productId != 0) ==>
          db.cart == old(db.cart) && db.nextCartId == old(db.nextCartId)
      ensures product.inStock && online && GetSessionUser(ctx, old(db.users)).Anonymous? ==>
        redirectedToLogin && db.cart == old(db.cart) && toast == old(toast)
      ensures var s := GetSessionUser(ctx, old(db.users));
        product.inStock && online && s.LookupFailed? ==>
          && toast == Some(AddErrorToast(CartAddRoute.Failed(s.message)))
          && db.cart == old(db.cart) && redirectedToLogin == old(redirectedToLogin)
      ensures var s := GetSessionUser(ctx, old(db.users));
        product.inStock && online && s.Authenticated? && !(product.productId in db.products && product.productId != 0) ==>
          && toast == Some(AddErrorToast(CartAddRoute.InvalidProduct))
          && db.cart == old(db.cart) && redirectedToLogin == old(redirectedToLogin)
      ensures db.users == old(db.users) && db.products == old(db.products) && db.wishlist == old(db.wishlist)
      ensures db.nextUserId == old(db.nextUserId) && db.nextWishId == old(db.nextWishId)
      ensures favorites == old(favorites) && loading == old(loading) && isGuest == old(isGuest)
    {
      if product.inStock {
        addingProductId := Some(product.productId);
        addingInFlight := addingProductId;
        if !online {
          toast := Some(AddNetworkError);
        } else {
          var res := PostProduct(db, ctx, product.productId);
          if res.status == 401 {
            redirectedToLogin := true;
          } else if !IsOk(res) {
            toast := Some(AddErrorToast(res));
          } else {
            toast := Some(Added(product.name));
          }
        }
        addingProductId := None;
      }
    }
  }
}
