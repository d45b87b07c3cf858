/**
 The CartItem rows of one cart, as a sequence of lines.

 A cart's lines are what `cart.items.all()` yields in store/views.py. Seen as a
 map, a cart sends each product to its quantity: `QtyOf` is that map and
 `Products` its key set. `AddLine` is the get-or-increment step shared by
 `cart_add` and by the merge loop of `get_or_create_cart`; `RemoveOne` is
 `cart_remove`; `MergeLines` is the merge loop itself.
 */
module CartLines {

  type ProductId = nat

  /** One CartItem row: a product and how many of it the cart holds. */
  datatype CartLine = CartLine(product: ProductId, quantity: nat)

  /** The outcome of `RemoveOne`: the new lines and whether a line for the product existed. */
  datatype Removal = Removal(lines: seq<CartLine>, found: bool)

  /** The products that have a line (the keys of the cart seen as a map). */
  function Products(lines: seq<CartLine>): (ps: set<ProductId>)
    ensures forall i :: 0 <= i < |lines| ==> lines[i].product in ps
  {
    if |lines| == 0 then {} else {lines[0].product} + Products(lines[1..])
  }

  /** No product has two lines: the (cart, product) pair of a CartItem is unique. */
  predicate Distinct(lines: seq<CartLine>)
  {
    |lines| == 0 || (lines[0].product !in Products(lines[1..]) && Distinct(lines[1..]))
  }

  /** Every line holds at least one unit. */
  predicate Positive(lines: seq<CartLine>)
  {
    forall i :: 0 <= i < |lines| ==> lines[i].quantity >= 1
  }

  /** The invariant every stored cart keeps: one line per product, each with a positive quantity. */
  predicate WellFormed(lines: seq<CartLine>)
  {
    Distinct(lines) && Positive(lines)
  }

  /** How many units of `p` the cart holds, over all of its lines (0 when there is none). */
  function QtyOf(lines: seq<CartLine>, p: ProductId): nat
  {
    if |lines| == 0 then 0
    else (if lines[0].product == p then lines[0].quantity else 0) + QtyOf(lines[1..], p)
  }

  /** The cart count of the views: the sum of the quantities of all lines. */
  function Count(lines: seq<CartLine>): nat
  {
    if |lines| == 0 then 0 else lines[0].quantity + Count(lines[1..])
  }

  /** A product without a line contributes nothing. */
  lemma {:induction false} QtyOfAbsent(lines: seq<CartLine>, p: ProductId)
    requires p !in Products(lines)
    ensures QtyOf(lines, p) == 0
  {
    if |lines| > 0 {
      QtyOfAbsent(lines[1..], p);
    }
  }

  /** In a cart with one line per product, the line for `p` carries all of `p`'s quantity. */
  lemma {:induction false} QtyOfLine(lines: seq<CartLine>, i: nat)
    requires Distinct(lines)
    requires i < |lines|
    ensures QtyOf(lines, lines[i].product) == lines[i].quantity
  {
    if i == 0 {
      QtyOfAbsent(lines[1..], lines[0].product);
    } else {
      QtyOfLine(lines[1..], i - 1);
    }
  }

  /**
   `cart_add`'s line step (store/views.py:109-114): the existing line for `p`
   gains `q` units; without one, a new line with `q` units is appended.
   */
  function AddLine(lines: seq<CartLine>, p: ProductId, q: nat): (r: seq<CartLine>)
    ensures QtyOf(r, p) == QtyOf(lines, p) + q
    ensures forall x :: x != p ==> QtyOf(r, x) == QtyOf(lines, x)
    ensures Count(r) == Count(lines) + q
    ensures Products(r) == Products(lines) + {p}
  {
    if |lines| == 0 then [CartLine(p, q)]
    else if lines[0].product == p then [CartLine(p, lines[0].quantity + q)] + lines[1..]
    else [lines[0]] + AddLine(lines[1..], p, q)
  }

  /** Without a line for `p`, adding appends one new line and leaves the others as they were. */
  lemma {:induction false} AddLineFresh(lines: seq<CartLine>, p: ProductId, q: nat)
    requires p !in Products(lines)
    ensures AddLine(lines, p, q) == lines + [CartLine(p, q)]
  {
    if |lines| > 0 {
      AddLineFresh(lines[1..], p, q);
      assert [lines[0]] + (lines[1..] + [CartLine(p, q)]) == lines + [CartLine(p, q)];
    }
  }

  /** With one line per product, adding increments `p`'s line in place and touches no other line. */
  lemma {:induction false} AddLineAt(lines: seq<CartLine>, i: nat, p: ProductId, q: nat)
    requires Distinct(lines)
    requires i < |lines| && lines[i].product == p
    ensures AddLine(lines, p, q) == lines[i := CartLine(p, lines[i].quantity + q)]
  {
    if i > 0 {
      var head, tail := lines[0], lines[1..];
      assert lines == [head] + tail;
      assert head.product != p;
      AddLineAt(tail, i - 1, p, q);
      ConsUpdate(head, tail, i - 1, CartLine(p, lines[i].quantity + q));
    }
  }

  /** Adding keeps one line per product, and positive quantities when `q` is positive. */
  lemma {:induction false} AddLineWellFormed(lines: seq<CartLine>, p: ProductId, q: nat)
    ensures Distinct(lines) ==> Distinct(AddLine(lines, p, q))
    ensures Positive(lines) && q >= 1 ==> Positive(AddLine(lines, p, q))
  {
    if |lines| > 0 && lines[0].product != p {
      AddLineWellFormed(lines[1..], p, q);
    }
  }

  /**
   `cart_remove`'s line step (store/views.py:133-139, 151): the first line for
   `p` loses one unit when it has more than one and is deleted otherwise; with
   no line for `p` nothing changes and the removal reports not found.
   */
  function RemoveOne(lines: seq<CartLine>, p: ProductId): (r: Removal)
    ensures r.found <==> p in Products(lines)
    ensures !r.found ==> r.lines == lines
    ensures forall x :: x != p ==> QtyOf(r.lines, x) == QtyOf(lines, x)
    ensures Positive(lines) && r.found ==> QtyOf(r.lines, p) + 1 == QtyOf(lines, p)
    ensures Positive(lines) && r.found ==> Count(r.lines) + 1 == Count(lines)
  {
    if |lines| == 0 then Removal(lines, false)
    else if lines[0].product == p then
      if lines[0].quantity > 1 then Removal([CartLine(p, lines[0].quantity - 1)] + lines[1..], true)
      else Removal(lines[1..], true)
    else
      var rest := RemoveOne(lines[1..], p);
      Removal([lines[0]] + rest.lines, rest.found)
  }

  /**
   Removing keeps one positive line per product and adds no product; in a
   well-formed cart `p` keeps a line exactly when it held more than one unit.
   */
  lemma {:induction false} RemoveOneWellFormed(lines: seq<CartLine>, p: ProductId)
    ensures Products(RemoveOne(lines, p).lines) <= Products(lines)
    ensures Distinct(lines) ==> Distinct(RemoveOne(lines, p).lines)
    ensures Positive(lines) ==> Positive(RemoveOne(lines, p).lines)
    ensures WellFormed(lines) ==> (p in Products(RemoveOne(lines, p).lines) <==> QtyOf(lines, p) > 1)
  {
    if |lines| > 0 {
      if lines[0].product == p {
        if Distinct(lines) {
          QtyOfAbsent(lines[1..], p);
        }
      } else {
        RemoveOneWellFormed(lines[1..], p);
      }
    }
  }

  /**
   In a cart with one line per product, removing `p` touches exactly the line
   for `p`: it is decremented in place when it holds more than one unit and
   cut out of the sequence otherwise.
   */
  lemma {:induction false} RemoveOneAt(lines: seq<CartLine>, i: nat, p: ProductId)
    requires Distinct(lines)
    requires i < |lines| && lines[i].product == p
    ensures RemoveOne(lines, p).lines ==
      if lines[i].quantity > 1 then lines[i := CartLine(p, lines[i].quantity - 1)]
      else lines[..i] + lines[i + 1..]
  {
    if i > 0 {
      var head, tail := lines[0], lines[1..];
      assert lines == [head] + tail;
      assert head.product != p;
      RemoveOneAt(tail, i - 1, p);
      if lines[i].quantity > 1 {
        ConsUpdate(head, tail, i - 1, CartLine(p, lines[i].quantity - 1));
      } else {
        ConsCut(head, tail, i - 1);
      }
    }
  }

  lemma ConsUpdate(head: CartLine, tail: seq<CartLine>, k: nat, v: CartLine)
    requires k < |tail|
    ensures [head] + tail[k := v] == ([head] + tail)[k + 1 := v]
  {
  }

  lemma ConsCut(head: CartLine, tail: seq<CartLine>, k: nat)
    requires k < |tail|
    ensures [head] + (tail[..k] + tail[k + 1..]) == ([head] + tail)[..k + 1] + ([head] + tail)[k + 2..]
  {
  }

  /** Removing one unit right after adding one unit gives back the cart exactly, line order included. */
  lemma {:induction false} AddThenRemove(lines: seq<CartLine>, p: ProductId)
    requires Positive(lines)
    ensures RemoveOne(AddLine(lines, p, 1), p) == Removal(lines, true)
  {
    if |lines| > 0 && lines[0].product != p {
      var rest := AddLine(lines[1..], p, 1);
      AddThenRemove(lines[1..], p);
      assert AddLine(lines, p, 1) == [lines[0]] + rest;
      assert ([lines[0]] + rest)[1..] == rest;
      assert [lines[0]] + lines[1..] == lines;
    }
  }

  /**
   The merge loop of `get_or_create_cart` (store/views.py:74-81): every line of
   the session cart `src`, in order, is added to the user cart `target`, by
   incrementing its existing line or by moving the line over.
   */
  function MergeLines(target: seq<CartLine>, src: seq<CartLine>): (r: seq<CartLine>)
    decreases |src|
    ensures forall x :: QtyOf(r, x) == QtyOf(target, x) + QtyOf(src, x)
    ensures Count(r) == Count(target) + Count(src)
  {
    if |src| == 0 then target
    else MergeLines(AddLine(target, src[0].product, src[0].quantity), src[1..])
  }

  /** The merge yields the union of the products and keeps one positive line per product. */
  lemma {:induction false} MergeLinesWellFormed(target: seq<CartLine>, src: seq<CartLine>)
    decreases |src|
    ensures Products(MergeLines(target, src)) == Products(target) + Products(src)
    ensures Distinct(target) ==> Distinct(MergeLines(target, src))
    ensures Positive(target) && Positive(src) ==> Positive(MergeLines(target, src))
  {
    if |src| > 0 {
      var head := src[0];
      AddLineWellFormed(target, head.product, head.quantity);
      MergeLinesWellFormed(AddLine(target, head.product, head.quantity), src[1..]);
    }
  }

  /**
   When the two carts share no product and the session cart has one line per
   product, the merge only moves lines: the result is the user cart followed
   by the session cart, and the "add quantities" branch never fires.
   */
  lemma {:induction false} MergeDisjoint(target: seq<CartLine>, src: seq<CartLine>)
    requires Distinct(src)
    requires Products(target) !! Products(src)
    ensures MergeLines(target, src) == target + src
    decreases |src|
  {
    if |src| > 0 {
      var moved := target + [src[0]];
      MoveStep(target, src);
      MergeDisjoint(moved, src[1..]);
      AppendHead(target, src);
    }
  }

  /** One iteration of the merge loop for a product the user cart lacks: the line is moved over. */
  lemma MoveStep(target: seq<CartLine>, src: seq<CartLine>)
    requires Distinct(src)
    requires Products(target) !! Products(src)
    requires |src| > 0
    ensures MergeLines(target, src) == MergeLines(target + [src[0]], src[1..])
    ensures Distinct(src[1..])
    ensures Products(target + [src[0]]) !! Products(src[1..])
  {
    assert src[0].product in Products(src);
    AddLineFresh(target, src[0].product, src[0].quantity);
  }

  lemma AppendHead(target: seq<CartLine>, src: seq<CartLine>)
    requires |src| > 0
    ensures target + [src[0]] + src[1..] == target + src
  {
  }

  /** Merging a session cart with one line per product into an empty cart reproduces it exactly. */
  lemma MergeIntoEmpty(src: seq<CartLine>)
    requires Distinct(src)
    ensures MergeLines([], src) == src
  {
    MergeDisjoint([], src);
  }
}
