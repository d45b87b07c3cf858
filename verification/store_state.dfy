/**
 The rows the cart and order views read and write, as one immutable value.

 Django's ORM tables become fields of `Db`; the session becomes an explicit
 `Session` value and the authenticated identity an explicit `Auth` value.
 Prices are Decimal amounts in the source and whole cents here.
 */
module StoreState {
  import opened Wrappers
  import opened CartLines

  type UserId = nat

  /** Primary key of a Cart row. Database ids start at 1, so a stored id is never falsy. */
  type CartId = x: int | x >= 1 witness 1

  /** A catalog row. `category` is the slug of the product's category (slugs are unique). */
  datatype Product = Product(
    name: string,
    description: string,
    category: string,
    price: nat,
    available: bool,
    created: int)

  /** A cart, owned by a user or (owner None) by an anonymous session. */
  datatype Cart = Cart(owner: Option<UserId>, lines: seq<CartLine>)

  /** The shipping fields of the checkout form. */
  datatype Shipping = Shipping(
    firstName: string,
    lastName: string,
    email: string,
    address: string,
    postalCode: string,
    city: string)

  /** An OrderItem row: the unit price is a copy taken when the order was placed. */
  datatype OrderLine = OrderLine(product: ProductId, price: nat, quantity: nat)

  datatype Order = Order(user: UserId, shipping: Shipping, lines: seq<OrderLine>)

  /** The database: products by id, carts by id, the next cart id to hand out, and the orders placed so far. */
  datatype Db = Db(
    products: map<ProductId, Product>,
    carts: map<CartId, Cart>,
    nextCart: CartId,
    orders: seq<Order>)

  /** The `cart_id` session entry. */
  type Session = Option<CartId>

  /** Who is making the request. */
  datatype Auth = Anonymous | Authenticated(user: UserId)

  /**
   The invariant of a reachable database: cart ids are below the id counter,
   every cart has one positive line per product and refers only to existing
   products, and no user owns two carts (Django's `get(user=...)` would fail).
   */
  predicate Valid(db: Db)
  {
    && (forall c :: c in db.carts ==> c < db.nextCart)
    && (forall c :: c in db.carts ==> WellFormed(db.carts[c].lines))
    && (forall c :: c in db.carts ==> Products(db.carts[c].lines) <= db.products.Keys)
    && (forall c1, c2 ::
          c1 in db.carts && c2 in db.carts && db.carts[c1].owner.Some? && db.carts[c1].owner == db.carts[c2].owner
          ==> c1 == c2)
  }

  /** Replaces the lines of cart `c`, leaving every other row as it was. */
  function SetLines(db: Db, c: CartId, lines: seq<CartLine>): (r: Db)
    requires Valid(db) && c in db.carts
    requires WellFormed(lines) && Products(lines) <= db.products.Keys
    ensures Valid(r)
    ensures r.carts == db.carts[c := db.carts[c].(lines := lines)]
    ensures r.products == db.products && r.nextCart == db.nextCart && r.orders == db.orders
  {
    var carts := db.carts[c := db.carts[c].(lines := lines)];
    assert forall d :: d in carts ==> carts[d].owner == db.carts[d].owner;
    db.(carts := carts)
  }
}
