/**
 Cart totals and order snapshots.

 `CartItem.get_cost` and `Cart.get_total_cost` live in store/models.py, which
 is not part of this model; they are taken to be price times quantity and the
 sum of that over the lines, priced at the product's current price.
 */
module Pricing {
  import opened CartLines
  import opened StoreState

  /** The current cost of a cart: each line at its product's live price. */
  function TotalCost(products: map<ProductId, Product>, lines: seq<CartLine>): nat
    requires Products(lines) <= products.Keys
  {
    if |lines| == 0 then 0
    else products[lines[0].product].price * lines[0].quantity + TotalCost(products, lines[1..])
  }

  /** The recorded cost of an order: each line at the price copied into it. */
  function OrderTotal(lines: seq<OrderLine>): nat
  {
    if |lines| == 0 then 0 else lines[0].price * lines[0].quantity + OrderTotal(lines[1..])
  }

  /**
   The order lines `checkout` creates from a cart (store/views.py:186-192):
   one per cart line, same product and quantity, unit price copied from the
   product as it is now.
   */
  function Snapshot(products: map<ProductId, Product>, lines: seq<CartLine>): (r: seq<OrderLine>)
    requires Products(lines) <= products.Keys
    ensures |r| == |lines|
    ensures forall i :: 0 <= i < |lines| ==>
      && r[i].product == lines[i].product
      && r[i].quantity == lines[i].quantity
      && r[i].price == products[lines[i].product].price
  {
    if |lines| == 0 then []
    else
      var line := OrderLine(lines[0].product, products[lines[0].product].price, lines[0].quantity);
      [line] + Snapshot(products, lines[1..])
  }

  /** At the moment of checkout the order is worth exactly what the cart cost. */
  lemma {:induction false} SnapshotTotal(products: map<ProductId, Product>, lines: seq<CartLine>)
    requires Products(lines) <= products.Keys
    ensures OrderTotal(Snapshot(products, lines)) == TotalCost(products, lines)
  {
    if |lines| > 0 {
      SnapshotTotal(products, lines[1..]);
      assert Snapshot(products, lines)[1..] == Snapshot(products, lines[1..]);
    }
  }

  /**
   A price change moves a cart's total by the change times the quantity of
   that product in the cart; an order's total depends only on its own lines.
   `repriced` is the product table after the price of `p` changed.
   */
  lemma {:induction false} TotalCostRepriced(
    products: map<ProductId, Product>, repriced: map<ProductId, Product>, lines: seq<CartLine>, p: ProductId)
    requires Products(lines) <= products.Keys && products.Keys == repriced.Keys
    requires p in products
    requires forall x :: x in products && x != p ==> repriced[x].price == products[x].price
    ensures TotalCost(repriced, lines) + products[p].price * QtyOf(lines, p)
         == TotalCost(products, lines) + repriced[p].price * QtyOf(lines, p)
  {
    if |lines| > 0 {
      var x, q, rest := lines[0].product, lines[0].quantity, lines[1..];
      TotalCostRepriced(products, repriced, rest, p);
      if x == p {
        RepriceStep(TotalCost(repriced, rest), TotalCost(products, rest), products[p].price, repriced[p].price, q, QtyOf(rest, p));
      }
    }
  }

  /** The arithmetic of one line of `TotalCostRepriced` when the line is for the repriced product. */
  lemma RepriceStep(restAfter: int, restBefore: int, before: int, after: int, q: int, n: int)
    requires restAfter + before * n == restBefore + after * n
    ensures (after * q + restAfter) + before * (q + n) == (before * q + restBefore) + after * (q + n)
  {
  }
}
