/**
 `checkout` (store/views.py:162-206): turning the request's cart into an order.

 The view requires a logged-in user, refuses an empty cart, shows the
 shipping form on a GET or on an invalid submission, and otherwise records
 one order with a priced copy of every cart line and empties the cart.
 Form validation belongs to Django; here it is the `formValid` parameter.
 */
module Checkout {
  import opened Wrappers
  import opened CartLines
  import opened StoreState
  import opened Pricing
  import opened CartResolution

  /** How the view ends. `Placed` carries the index of the new order. */
  datatype CheckoutOutcome = LoginRequired | EmptyCart | FormShown | Placed(order: nat)

  datatype CheckoutResponse = CheckoutResponse(db: Db, session: Session, outcome: CheckoutOutcome)

  /**
   Store/views.py:176-195: append an order for `u` with one line per cart line,
   priced at the current product price, then delete the cart's lines.
   */
  function PlaceOrder(db: Db, c: CartId, u: UserId, shipping: Shipping): (r: Db)
    requires Valid(db) && c in db.carts
    ensures Valid(r)
    ensures |r.orders| == |db.orders| + 1 && r.orders[..|db.orders|] == db.orders
    ensures var order, lines := r.orders[|db.orders|], db.carts[c].lines;
      && order.user == u && order.shipping == shipping
      && |order.lines| == |lines|
      && (forall i :: 0 <= i < |lines| ==>
            && order.lines[i].product == lines[i].product
            && order.lines[i].quantity == lines[i].quantity
            && order.lines[i].price == db.products[lines[i].product].price)
      && OrderTotal(order.lines) == TotalCost(db.products, lines)
    // the cart stays, emptied; nothing else changes
    ensures r.carts == db.carts[c := db.carts[c].(lines := [])]
    ensures r.products == db.products && r.nextCart == db.nextCart
  {
    var lines := db.carts[c].lines;
    var order := Order(u, shipping, Snapshot(db.products, lines));
    SnapshotTotal(db.products, lines);
    SetLines(db, c, []).(orders := db.orders + [order])
  }

  /**
   The whole view. `submitted` is the submitted form as Django cleans it
   (`form.cleaned_data`, already stripped of surrounding whitespace), None on
   a GET; `formValid` is Django's `form.is_valid()`.
   */
  function CheckoutView(db: Db, session: Session, auth: Auth, submitted: Option<Shipping>, formValid: Shipping -> bool)
    : (r: CheckoutResponse)
    requires Valid(db)
    ensures Valid(r.db)
    ensures r.db.products == db.products
    ensures auth.Anonymous? ==> r == CheckoutResponse(db, session, LoginRequired)
    ensures auth.Authenticated? ==>
      var res := ResolveCart(db, session, auth);
      var lines := res.db.carts[res.cart].lines;
      && r.session == res.session
      // an empty cart places nothing and changes nothing beyond resolving the cart
      && (lines == [] ==> r == CheckoutResponse(res.db, res.session, EmptyCart))
      // no valid submission: the form is shown again and nothing beyond resolution changes
      && (lines != [] && (submitted.None? || !formValid(submitted.value)) ==>
            r == CheckoutResponse(res.db, res.session, FormShown))
      // a valid submission places exactly one order and empties the cart
      && (lines != [] && submitted.Some? && formValid(submitted.value) ==>
            && r.db == PlaceOrder(res.db, res.cart, auth.user, submitted.value)
            && r.outcome == Placed(|db.orders|)
            && |r.db.orders| == |db.orders| + 1
            && r.db.orders[..|db.orders|] == db.orders
            && r.db.orders[|db.orders|] == Order(auth.user, submitted.value, Snapshot(db.products, lines))
            && r.db.carts == res.db.carts[res.cart := Cart(Some(auth.user), [])]
            && r.db.nextCart == res.db.nextCart)
    ensures r.outcome.Placed? <==>
      auth.Authenticated? && submitted.Some? && formValid(submitted.value)
      && ResolveCart(db, session, auth).db.carts[ResolveCart(db, session, auth).cart].lines != []
  {
    match auth
    case Anonymous => CheckoutResponse(db, session, LoginRequired)
    case Authenticated(u) =>
      var res := ResolveCart(db, session, auth);
      if res.db.carts[res.cart].lines == [] then CheckoutResponse(res.db, res.session, EmptyCart)
      else if submitted.None? || !formValid(submitted.value) then CheckoutResponse(res.db, res.session, FormShown)
      else CheckoutResponse(PlaceOrder(res.db, res.cart, u, submitted.value), res.session, Placed(|res.db.orders|))
  }
}
