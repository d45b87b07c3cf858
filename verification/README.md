# Cart, order and catalog workflow of the e-commerce store, in Dafny

This project models the shopping core of a Django storefront (`store/views.py`):
which cart a request works on (`get_or_create_cart`, including the merge of an
anonymous session cart into a user's first cart), adding to and removing from
that cart (`cart_add`, `cart_remove`), turning it into an order (`checkout`),
and the catalog listing's filter and sort (`product_list`).

The ORM tables become one immutable `Db` value (products by id, carts by id,
the next cart id, the orders placed), the session's `cart_id` entry becomes an
explicit `Session` (`Option<CartId>`), and the logged-in identity an explicit
`Auth`. Every view is a pure function from the state before the request to the
state after it. A cart's CartItem rows are a sequence of lines; `QtyOf(lines, p)`
reads a cart as the map product -> quantity and `Count` is the `cart_count` the
views report. Prices are whole cents (`nat`), not decimals.

Files:

- `wrappers.dfy`: `Option` and `Result`.
- `cart_lines.dfy`: the lines of one cart and the add, remove-one and merge steps.
- `store_state.dfy`: entities (Product, Cart, Order, OrderLine, Shipping), the database and its invariant `Valid`.
- `pricing.dfy`: cart total at live prices, order lines as price snapshots.
- `cart_resolution.dfy`: `get_or_create_cart`.
- `cart_views.dfy`: `cart_add`, `cart_remove`.
- `checkout.dfy`: `checkout`.
- `catalog.dfy`: `product_list`.

Every cart and checkout operation is stated for a `Valid` database and proved
to keep it `Valid` (the catalog listing reads only product rows and needs no
invariant): cart ids below the id counter, one line per product with a positive
quantity in every cart, lines only for existing products, at most one cart per
user.

`Cart.get_total_cost` and `CartItem.get_cost` are defined in `store/models.py`,
which is not part of this model. `TotalCost` assumes they are the sum of the
current product price times the quantity.

`CartViews.Status` is the pair `cart_count` / `cart_total` that the AJAX
responses of `cart_add` and `cart_remove` report (store/views.py:117, 122,
142, 147): the cart's number of units and its `TotalCost`.
`CartResolution.SessionCart` is the session lookup of store/views.py:72 and
91: the cart named by the session's `cart_id`, when that id exists.

An order's total, `OrderTotal`, takes no price table: it reads only the unit
prices copied into the order lines. A later price change therefore moves
cart totals (`Pricing.TotalCostRepriced`) but cannot move any placed order's
total.

The model follows the code where it departs from what a reader of the views might expect:

- Checkout tests for an empty cart before it looks at the form.
- `cart_remove` reports a count and total only when the line was found.
- `cart_add` accepts any product that exists, available or not.
- Nothing is wrapped in a transaction. Each view is modelled as one atomic step.

## Model

| member | source | states |
|---|---|---|
| CartLines.AddLine | store/views.py:108-114 | p's quantity becomes its old quantity (0 when absent) plus q. Every other product's quantity is unchanged. The count grows by q, and p is added to the products. |
| CartLines.AddLineFresh | store/views.py:113-114 | Without a line for p, adding appends exactly one new line with quantity q and leaves every existing line as it was. |
| CartLines.AddLineAt | store/views.py:110-112 | In a cart with one line per product, adding increments p's existing line in place by q and touches no other line. |
| CartLines.AddLineWellFormed | store/views.py:108-114 | Adding keeps one line per product, so repeated adds never duplicate a row. A positive q keeps every quantity positive. |
| CartLines.QtyOfLine | store/views.py:110 | In a cart with one line per product, the single line found for a product carries that product's whole quantity. |
| CartLines.RemoveOne | store/views.py:133-153 | Reports found exactly when p has a line; not found leaves the lines identical. Found takes exactly one unit off p and off the count. Other products are unchanged. |
| CartLines.RemoveOneWellFormed | store/views.py:133-139 | Removal adds no product and keeps one positive line per product. In such a cart, p keeps a line iff it had more than one unit. |
| CartLines.RemoveOneAt | store/views.py:133-139 | For a cart with one line per product, removal touches only p's line: decremented in place when above one, cut out of the sequence when it is one. |
| CartLines.AddThenRemove | store/views.py:108-139 | Adding one unit and then removing one unit restores the cart exactly, line order included. |
| CartLines.MergeLines | store/views.py:74-81 | After merging a session cart into a user cart, every product's quantity is user quantity plus session quantity, and the count is the sum. |
| CartLines.MergeLinesWellFormed | store/views.py:74-81 | The merged cart's products are the union of both carts'. It keeps one line per product when the user cart did, and positive quantities when both carts had them. |
| CartLines.MergeDisjoint | store/views.py:74-81 | When the session cart has one line per product and the carts share no product, the merge only moves lines: the result is the user lines followed by the session lines, so the increment branch never fires. |
| CartLines.MergeIntoEmpty | store/views.py:67-81 | Merging a session cart that has one line per product into the freshly created, empty user cart reproduces the session cart exactly. |
| Pricing.Snapshot | store/views.py:186-192 | One order line per cart line, in the same order, with the same product and quantity and the unit price equal to the product's current price. |
| Pricing.SnapshotTotal | store/views.py:186-192 | The order lines copied from a cart are worth, at their recorded prices, exactly the cart's total at checkout time. |
| Pricing.TotalCostRepriced | store/views.py:186-192 | A later price change of product p moves a cart's total by exactly the price difference times p's quantity in the cart. |
| StoreState.SetLines | store/views.py:111-114 | Writing a cart's lines changes that cart's lines and nothing else: owners, other carts, products and orders are kept, and so is the invariant. |
| CartResolution.FindUserCart | store/views.py:67 | The lookup returns a cart owned by the user, or None only when no cart in the scanned id range belongs to the user. |
| CartResolution.UserCart | store/views.py:67 | The user's cart is found iff some cart is owned by the user. |
| CartResolution.CreateCart | store/views.py:93-97 | A new empty cart is stored under an id no cart had, with the requested owner. Nothing else changes and the invariant is kept. |
| CartResolution.MergeOnLogin | store/views.py:70-83 | On a first login with an anonymous cart, the new user cart holds exactly the anonymous cart's lines. The anonymous cart is gone, the session entry is cleared, every other cart is unchanged, and the invariant is kept. |
| CartResolution.ResolveUser | store/views.py:66-85 | A user with a cart gets that cart, and database and session are untouched (no merge). Without one: merge as above when the session names an ownerless cart, otherwise a new empty user cart and the same session. |
| CartResolution.ResolveAnonymous | store/views.py:86-97 | An ownerless cart named by the session is reused with nothing changed. Otherwise (no id, unknown id, owned cart) a new empty ownerless cart is created and its id is stored in the session. |
| CartResolution.ResolveCart | store/views.py:64-99 | The resolved cart exists, is owned by the requester (None for anonymous), and the invariant is kept. Products and orders are untouched. Reusing an existing cart changes nothing. |
| CartResolution.ResolveIdempotent | store/views.py:64-99 | Resolving again from the state a resolution left behind returns the same cart and changes nothing. |
| CartViews.AddToCart | store/views.py:108-117 | Adding q of p to a cart leaves exactly one line for p with quantity old + q, and other quantities and carts unchanged. The count grows by q. The invariant is kept. |
| CartViews.RemoveFromCart | store/views.py:133-139 | Removing p from a cart: not found leaves the database identical. Found takes off one unit and drops the line iff it held one. Other quantities and carts are unchanged. |
| CartViews.CartAdd | store/views.py:101-123 | A request that is not a POST is refused with method-not-allowed, before anything else. A POST fails iff the product does not exist, and then nothing changes (the product is looked up before the cart). Otherwise it adds to the cart resolution picked: p's quantity grows by q, the invariant is kept, and the reported count is the old count plus q. |
| CartViews.CartRemove | store/views.py:128-153 | The view fails iff the product does not exist. Otherwise it works on the resolved cart: not found iff p has no line, and then nothing beyond resolution changes and no count is reported. Found: p loses one unit and the reported count is one less. |
| Checkout.PlaceOrder | store/views.py:176-195 | One order is appended for the user with the given shipping fields. It has one line per cart line, with the same product and quantity and unit price equal to the product's current price, and its total equals the cart's total. The cart stays, empty; nothing else changes. |
| Checkout.CheckoutView | store/views.py:162-206 | Anonymous: login required, nothing changes. Empty resolved cart: rejected, nothing beyond resolution changes. GET or invalid form: form shown, nothing beyond resolution changes. Otherwise exactly one order is appended and the earlier orders are kept. The new order belongs to the user, carries the submitted shipping fields and the snapshot of the cart's lines. The cart is emptied and keeps its owner; other carts, products and the id counter are unchanged. An order is placed iff all of these hold. |
| Catalog.Select | store/views.py:15-28 | Every kept row is listed: available, in the category if one is given, and containing the search text in name or description, ignoring case, if one is given. Each listed row is kept as often as it occurs. |
| Catalog.SortBy | store/views.py:30-39 | The result is ordered by the sort key and is a permutation of the input. |
| Catalog.SortedPairwise | store/views.py:30-39 | In a sorted result, every earlier row comes no later than every later row. |
| Catalog.ProductList | store/views.py:11-47 | Fails iff a non-empty category slug is unknown. Otherwise it returns exactly the listed products (with multiplicity), every pair ordered by the key: price_low by price up, price_high by price down, newest by creation time down, anything else by name up. |

## Left out

- Rendering, flash messages, redirects and the AJAX-versus-HTML branching. These are presentation only; the model's results carry the values the JSON responses report.
- The `float(...)` conversions in JSON responses. They are floating-point serialisation; totals stay whole cents here.
- `cart_detail` and `order_confirmation` are not modelled separately. The first is `get_or_create_cart` plus a render; the second only renders.
- `product_detail`, `api_products` and `api_cart_status` are not modelled. They are field projections and slices of ORM queries.
- Checkout's GET branch pre-fills the form from the user's profile; that is form presentation.
- `Cart.get_total_cost` / `CartItem.get_cost`: store/models.py is not part of this model. `TotalCost` assumes the sum of current price times quantity.
- CartViews.CartAdd: requires q >= 1. The source parses the quantity with a bare `int(...)` and never checks it; the `CartAddProductForm` with `min_value=1` is not used by the view. A zero or negative quantity is not modelled.
- Django form validation of the shipping fields is not modelled; it is the `formValid` parameter of `Checkout.CheckoutView`. The `submitted` shipping fields are the cleaned values: Django's stripping of surrounding whitespace (store/views.py:178-183 read `cleaned_data`) happens before the model sees them.
- CartViews.CartAdd: a non-numeric quantity is not modelled. In the source `int(...)` (store/views.py:106) runs after `get_or_create_cart` (105), so such a request raises only after resolution may already have created or merged a cart; the model takes the quantity as an integer.
- Transactions, row locking and concurrent increments are not modelled. Each request is one atomic state transition.
- Deleting a product, and the cascade to cart lines, is not modelled. It is an admin action outside the views.
- Catalog.ProductList: case-insensitive search folds only ASCII letters, and names are ordered by character code. Database collation and Unicode case folding are not modelled.
- Catalog.ProductList: rows that tie on the sort key keep their table order. This is stricter than the database, which leaves tie order unspecified.
- `store/management/commands/*` (seeding and clean-up scripts) are not modelled; they do database, filesystem and shell I/O.
- `users/views.py`, `about`, `contact` and the URL tables are not modelled. They hold profile field assignment, a one-line order-history query, stubs and routing.
