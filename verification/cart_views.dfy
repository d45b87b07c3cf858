/**
 The cart-changing views `cart_add` (store/views.py:101-126) and
 `cart_remove` (store/views.py:128-155), as transitions of the database and
 the session. The rendered page, flash messages and redirects are not part of
 the result; the JSON `cart_count` and `cart_total` are.
 */
module CartViews {
  import opened Wrappers
  import opened CartLines
  import opened StoreState
  import opened Pricing
  import opened CartResolution

  /**
   Why a view stopped before touching the cart: `@require_POST` refused a
   request that was not a POST (HTTP 405), or `get_object_or_404(Product,
   id=...)` found no product (HTTP 404).
   */
  datatype ViewError = MethodNotAllowed | ProductNotFound

  /** The database after a remove-one on a cart, and whether the cart had a line for the product. */
  datatype CartRemoval = CartRemoval(db: Db, found: bool)

  /** What the AJAX response reports about the cart afterwards. */
  datatype CartStatus = CartStatus(count: nat, total: nat)

  /** The database and session after the view, the cart it worked on, and what it reports. */
  datatype CartUpdate = CartUpdate(db: Db, session: Session, cart: CartId, found: bool, status: Option<CartStatus>)

  /** The count and total of a cart: its number of units and its cost at current prices. */
  function Status(db: Db, c: CartId): (r: CartStatus)
    requires Valid(db) && c in db.carts
  {
    CartStatus(Count(db.carts[c].lines), TotalCost(db.products, db.carts[c].lines))
  }

  /** One add on cart `c`: the store-level effect of store/views.py:109-114. */
  function AddToCart(db: Db, c: CartId, p: ProductId, q: int): (r: Db)
    requires Valid(db) && c in db.carts && p in db.products
    requires q >= 1
    ensures Valid(r) && c in r.carts
    ensures var before, after := db.carts[c].lines, r.carts[c].lines;
      && Distinct(after) && p in Products(after)
      && QtyOf(after, p) == QtyOf(before, p) + q
      && (forall x :: x != p ==> QtyOf(after, x) == QtyOf(before, x))
      && Count(after) == Count(before) + q
      && r.carts == db.carts[c := db.carts[c].(lines := after)]
    ensures r.products == db.products && r.orders == db.orders && r.nextCart == db.nextCart
  {
    AddLineWellFormed(db.carts[c].lines, p, q);
    SetLines(db, c, AddLine(db.carts[c].lines, p, q))
  }

  /** One remove on cart `c`: the store-level effect of store/views.py:133-139 and 151. */
  function RemoveFromCart(db: Db, c: CartId, p: ProductId): (r: CartRemoval)
    requires Valid(db) && c in db.carts
    ensures Valid(r.db) && c in r.db.carts
    ensures var before, after := db.carts[c].lines, r.db.carts[c].lines;
      && (r.found <==> p in Products(before))
      && (!r.found ==> r.db == db)
      && (r.found ==> QtyOf(after, p) + 1 == QtyOf(before, p))
      && (r.found ==> (p in Products(after) <==> QtyOf(before, p) > 1))
      && (r.found ==> Count(after) + 1 == Count(before))
      && (forall x :: x != p ==> QtyOf(after, x) == QtyOf(before, x))
      && r.db.carts == db.carts[c := db.carts[c].(lines := after)]
    ensures r.db.products == db.products && r.db.orders == db.orders && r.db.nextCart == db.nextCart
  {
    var removal := RemoveOne(db.carts[c].lines, p);
    RemoveOneWellFormed(db.carts[c].lines, p);
    if removal.found then CartRemoval(SetLines(db, c, removal.lines), true)
    else
      assert db.carts[c := db.carts[c]] == db.carts;
      CartRemoval(db, false)
  }

  /**
   `cart_add`: only a POST is served (`post` is false for any other method),
   and the product must exist; then the request's cart gains `q` units of
   it. The source parses `q` with a bare `int(...)` and never checks it, so
   `q >= 1` is left to the caller.
   */
  function CartAdd(db: Db, session: Session, auth: Auth, post: bool, p: ProductId, q: int)
    : (r: Result<CartUpdate, ViewError>)
    requires Valid(db)
    requires q >= 1
    ensures r == Failure(MethodNotAllowed) <==> !post
    ensures r == Failure(ProductNotFound) <==> post && p !in db.products
    ensures r.Success? ==>
      var res := ResolveCart(db, session, auth);
      var before := res.db.carts[res.cart].lines;
      && r.value.cart == res.cart && r.value.session == res.session && r.value.found
      && r.value.db == AddToCart(res.db, res.cart, p, q)
      && Valid(r.value.db) && r.value.cart in r.value.db.carts
      && QtyOf(r.value.db.carts[r.value.cart].lines, p) == QtyOf(before, p) + q
      && r.value.status == Some(Status(r.value.db, res.cart))
      && r.value.status.value.count == Count(before) + q
  {
    if !post then Failure(MethodNotAllowed)
    else if p !in db.products then Failure(ProductNotFound)
    else
      var res := ResolveCart(db, session, auth);
      var db' := AddToCart(res.db, res.cart, p, q);
      Success(CartUpdate(db', res.session, res.cart, true, Some(Status(db', res.cart))))
  }

  /**
   `cart_remove`: the product must exist; then the request's cart loses one
   unit of it, the line going away when it held one. A product without a line
   leaves the cart as it was and is reported as not found, with no count.
   */
  function CartRemove(db: Db, session: Session, auth: Auth, p: ProductId): (r: Result<CartUpdate, ViewError>)
    requires Valid(db)
    ensures r.Failure? <==> p !in db.products
    ensures r.Success? ==>
      var res := ResolveCart(db, session, auth);
      var removal := RemoveFromCart(res.db, res.cart, p);
      var before := res.db.carts[res.cart].lines;
      && r.value.cart == res.cart && r.value.session == res.session
      && r.value.db == removal.db && r.value.found == removal.found
      && Valid(r.value.db) && r.value.cart in r.value.db.carts
      && (r.value.found <==> p in Products(before))
      && (!r.value.found ==> r.value.db == res.db && r.value.status == None)
      && (r.value.found ==> QtyOf(r.value.db.carts[r.value.cart].lines, p) + 1 == QtyOf(before, p))
      && (r.value.found ==> r.value.status == Some(Status(removal.db, res.cart)))
      && (r.value.found ==> r.value.status.value.count + 1 == Count(before))
  {
    if p !in db.products then Failure(ProductNotFound)
    else
      var res := ResolveCart(db, session, auth);
      var removal := RemoveFromCart(res.db, res.cart, p);
      var status := if removal.found then Some(Status(removal.db, res.cart)) else None;
      Success(CartUpdate(removal.db, res.session, res.cart, removal.found, status))
  }
}
