/**
 `get_or_create_cart` (store/views.py:64-99): which cart a request works on.

 A logged-in user gets their own cart, created on first use; when it is
 created and the session still names an anonymous cart, that cart's lines are
 merged into it, the anonymous cart is deleted and the session entry cleared.
 An anonymous visitor gets the ownerless cart the session names, or a fresh
 one whose id is stored in the session.
 */
module CartResolution {
  import opened Wrappers
  import opened CartLines
  import opened StoreState

  /** The database after resolution, the session after resolution, and the cart to work on. */
  datatype Resolved = Resolved(db: Db, session: Session, cart: CartId)

  /**
   `Cart.objects.get(user=u)` over the ids `from .. bound-1`: the first cart
   owned by `u`, or None when there is none in that range.
   */
  function FindUserCart(carts: map<CartId, Cart>, u: UserId, from: CartId, bound: int): (r: Option<CartId>)
    decreases bound - from
    ensures r.Some? ==> r.value in carts && carts[r.value].owner == Some(u)
    ensures r.None? ==> forall c: CartId :: from <= c < bound && c in carts ==> carts[c].owner != Some(u)
  {
    if bound <= from then None
    else if from in carts && carts[from].owner == Some(u) then Some(from)
    else FindUserCart(carts, u, from + 1, bound)
  }

  /** The user's cart, if they have one. */
  function UserCart(db: Db, u: UserId): (r: Option<CartId>)
    requires Valid(db)
    ensures r.Some? ==> r.value in db.carts && db.carts[r.value].owner == Some(u)
    ensures r.None? <==> forall c :: c in db.carts ==> db.carts[c].owner != Some(u)
  {
    FindUserCart(db.carts, u, 1, db.nextCart)
  }

  /** `Cart.objects.get(id=session_cart_id, user=None)`: the ownerless cart the session names, if any. */
  function SessionCart(db: Db, session: Session): Option<CartId>
  {
    if session.Some? && session.value in db.carts && db.carts[session.value].owner.None?
    then Some(session.value)
    else None
  }

  /** True when no cart is owned by `u`. */
  predicate NoUserCart(db: Db, u: UserId)
  {
    forall c :: c in db.carts ==> db.carts[c].owner != Some(u)
  }

  /**
   Deleting some carts and adding a well-formed cart under the next id keeps
   the database valid, provided the new cart's owner had no cart yet.
   */
  lemma ValidAfterAdding(db: Db, gone: set<CartId>, cart: Cart)
    requires Valid(db)
    requires WellFormed(cart.lines) && Products(cart.lines) <= db.products.Keys
    requires cart.owner.Some? ==> NoUserCart(db, cart.owner.value)
    ensures Valid(db.(carts := (db.carts - gone)[db.nextCart := cart], nextCart := db.nextCart + 1))
  {
  }

  /** `Cart.objects.create(...)`: a new empty cart under the next id. */
  function CreateCart(db: Db, owner: Option<UserId>): (r: Db)
    requires Valid(db)
    requires owner.Some? ==> NoUserCart(db, owner.value)
    ensures Valid(r)
    ensures db.nextCart !in db.carts
    ensures r.carts == db.carts[db.nextCart := Cart(owner, [])]
    ensures r.nextCart > db.nextCart
    ensures r.products == db.products && r.orders == db.orders
  {
    ValidAfterAdding(db, {}, Cart(owner, []));
    assert db.carts - {} == db.carts;
    db.(carts := db.carts[db.nextCart := Cart(owner, [])], nextCart := db.nextCart + 1)
  }

  /**
   The merge of store/views.py:70-83 on a user's first cart: the new user cart
   receives the anonymous cart's lines, the anonymous cart is deleted and the
   session entry dropped.
   */
  function MergeOnLogin(db: Db, u: UserId, s: CartId): (r: Resolved)
    requires Valid(db)
    requires NoUserCart(db, u)
    requires s in db.carts && db.carts[s].owner.None?
    ensures Valid(r.db)
    ensures r.cart == db.nextCart && r.cart !in db.carts
    ensures r.session == None
    ensures s !in r.db.carts
    ensures r.db.carts == (db.carts - {s})[r.cart := Cart(Some(u), db.carts[s].lines)]
    ensures r.db.products == db.products && r.db.orders == db.orders
  {
    var n := db.nextCart;
    var src := db.carts[s].lines;
    var merged := MergeLines([], src);
    MergeIntoEmpty(src);
    ValidAfterAdding(db, {s}, Cart(Some(u), merged));
    Resolved(db.(carts := (db.carts - {s})[n := Cart(Some(u), merged)], nextCart := n + 1), None, n)
  }

  /** Resolution for a logged-in user (store/views.py:66-85). */
  function ResolveUser(db: Db, session: Session, u: UserId): (r: Resolved)
    requires Valid(db)
    ensures Valid(r.db)
    ensures r.cart in r.db.carts && r.db.carts[r.cart].owner == Some(u)
    ensures r.db.products == db.products && r.db.orders == db.orders
    ensures !NoUserCart(db, u) ==>
      && r.cart in db.carts
      && forall c :: c in db.carts && db.carts[c].owner == Some(u) ==> r == Resolved(db, session, c)
    ensures NoUserCart(db, u) && SessionCart(db, session).Some? ==>
      var s := SessionCart(db, session).value;
      && r.cart !in db.carts
      && r.session == None
      && s !in r.db.carts
      && r.db.carts == (db.carts - {s})[r.cart := Cart(Some(u), db.carts[s].lines)]
    ensures NoUserCart(db, u) && SessionCart(db, session).None? ==>
      && r.cart !in db.carts
      && r.session == session
      && r.db.carts == db.carts[r.cart := Cart(Some(u), [])]
    ensures r.cart in db.carts ==> r.db == db && r.session == session
    ensures r.cart !in db.carts ==> r.db.nextCart > r.cart
  {
    match UserCart(db, u)
    case Some(c) => Resolved(db, session, c)
    case None =>
      match SessionCart(db, session)
      case Some(s) => MergeOnLogin(db, u, s)
      case None => Resolved(CreateCart(db, Some(u)), session, db.nextCart)
  }

  /** Resolution for an anonymous visitor (store/views.py:86-97). */
  function ResolveAnonymous(db: Db, session: Session): (r: Resolved)
    requires Valid(db)
    ensures Valid(r.db)
    ensures r.cart in r.db.carts && r.db.carts[r.cart].owner == None
    ensures r.db.products == db.products && r.db.orders == db.orders
    ensures SessionCart(db, session).Some? ==> r == Resolved(db, session, SessionCart(db, session).value)
    ensures SessionCart(db, session).None? ==>
      && r.cart !in db.carts
      && r.db.carts == db.carts[r.cart := Cart(None, [])]
      && r.session == Some(r.cart)
    ensures r.cart in db.carts ==> r.db == db && r.session == session
    ensures r.cart !in db.carts ==> r.db.nextCart > r.cart
  {
    match SessionCart(db, session)
    case Some(s) => Resolved(db, session, s)
    case None => Resolved(CreateCart(db, None), Some(db.nextCart), db.nextCart)
  }

  /** `get_or_create_cart`: the cart a request works on, and the database and session it leaves. */
  function ResolveCart(db: Db, session: Session, auth: Auth): (r: Resolved)
    requires Valid(db)
    ensures Valid(r.db)
    ensures r.cart in r.db.carts
    ensures r.db.carts[r.cart].owner == (if auth.Authenticated? then Some(auth.user) else None)
    ensures r.db.products == db.products && r.db.orders == db.orders
    ensures r.cart in db.carts ==> r.db == db && r.session == session
  {
    match auth
    case Authenticated(u) => ResolveUser(db, session, u)
    case Anonymous => ResolveAnonymous(db, session)
  }

  /**
   Resolving again with the database and session a resolution left behind
   finds the same cart and changes nothing: only the first request of a
   visitor or a user creates or merges.
   */
  lemma ResolveIdempotent(db: Db, session: Session, auth: Auth)
    requires Valid(db)
    ensures var r := ResolveCart(db, session, auth);
      ResolveCart(r.db, r.session, auth) == Resolved(r.db, r.session, r.cart)
  {
  }
}
