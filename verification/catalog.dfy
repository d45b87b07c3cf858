/**
 `product_list` (store/views.py:11-47) without the rendering: which products
 the catalog page lists, and in what order.

 `icontains` is modelled with ASCII case folding, and names are ordered by
 character code; the collation of the underlying database is not modelled.
 Rows that tie on the sort key keep their relative order here, which the
 database does not promise.
 */
module Catalog {
  import opened Wrappers
  import opened StoreState

  /** `get_object_or_404(Category, slug=...)` failed. */
  datatype CatalogError = CategoryNotFound

  /** ASCII lower case, the folding `icontains` applies to the letters A-Z. */
  function Lower(c: char): char
  {
    if 'A' <= c <= 'Z' then (c as int + 32) as char else c
  }

  function Fold(s: string): (r: string)
    ensures |r| == |s|
    ensures forall i :: 0 <= i < |s| ==> r[i] == Lower(s[i])
  {
    if |s| == 0 then "" else [Lower(s[0])] + Fold(s[1..])
  }

  /** `needle` occurs in `text` starting at position `i`. */
  predicate OccursAt(text: string, needle: string, i: int)
  {
    0 <= i <= |text| - |needle| && text[i..i + |needle|] == needle
  }

  /** `field__icontains=needle`: the needle occurs in the field, ignoring case. */
  predicate ContainsIgnoringCase(field: string, needle: string)
  {
    exists i | 0 <= i <= |field| :: OccursAt(Fold(field), Fold(needle), i)
  }

  /**
   Whether a product is listed: it is available, it is in the category when a
   category slug is given, and when a search text is given it occurs in the
   name or in the description. Empty strings are falsy in the source and
   mean "no filter".
   */
  predicate Listed(p: Product, category: string, search: string)
  {
    && p.available
    && (category == "" || p.category == category)
    && (search == "" || ContainsIgnoringCase(p.name, search) || ContainsIgnoringCase(p.description, search))
  }

  /** The queryset after its filters: the listed rows, in table order. */
  function Select(rows: seq<Product>, category: string, search: string): (r: seq<Product>)
    ensures forall i :: 0 <= i < |r| ==> Listed(r[i], category, search)
    ensures forall p :: multiset(r)[p] == if Listed(p, category, search) then multiset(rows)[p] else 0
  {
    if |rows| == 0 then []
    else
      assert rows == [rows[0]] + rows[1..];
      if Listed(rows[0], category, search) then [rows[0]] + Select(rows[1..], category, search)
      else Select(rows[1..], category, search)
  }

  /** Character-code lexicographic order on names: `a` sorts no later than `b`. */
  predicate NameLe(a: string, b: string)
  {
    |a| == 0 || (|b| > 0 && (a[0] < b[0] || (a[0] == b[0] && NameLe(a[1..], b[1..]))))
  }

  lemma {:induction false} NameLeTotal(a: string, b: string)
    ensures NameLe(a, b) || NameLe(b, a)
  {
    if |a| > 0 && |b| > 0 && a[0] == b[0] {
      NameLeTotal(a[1..], b[1..]);
    }
  }

  lemma {:induction false} NameLeTransitive(a: string, b: string, c: string)
    requires NameLe(a, b) && NameLe(b, c)
    ensures NameLe(a, c)
  {
    if |a| > 0 && |b| > 0 && |c| > 0 && a[0] == b[0] && b[0] == c[0] {
      NameLeTransitive(a[1..], b[1..], c[1..]);
    }
  }

  /**
   The `order_by` of store/views.py:31-39: `price_low` by price ascending,
   `price_high` by price descending, `newest` by creation time descending,
   and any other value (the default is `name`) by name ascending.
   */
  predicate Before(sort: string, a: Product, b: Product)
  {
    if sort == "price_low" then a.price <= b.price
    else if sort == "price_high" then a.price >= b.price
    else if sort == "newest" then a.created >= b.created
    else NameLe(a.name, b.name)
  }

  lemma BeforeTotal(sort: string, a: Product, b: Product)
    ensures Before(sort, a, b) || Before(sort, b, a)
  {
    NameLeTotal(a.name, b.name);
  }

  lemma BeforeTransitive(sort: string, a: Product, b: Product, c: Product)
    requires Before(sort, a, b) && Before(sort, b, c)
    ensures Before(sort, a, c)
  {
    if sort != "price_low" && sort != "price_high" && sort != "newest" {
      NameLeTransitive(a.name, b.name, c.name);
    }
  }

  /** Each row comes no later than the next one in the sort order. */
  predicate Sorted(sort: string, s: seq<Product>)
  {
    forall i :: 0 < i < |s| ==> Before(sort, s[i - 1], s[i])
  }

  /** Insertion of one row into a sorted list, after every row it does not come before. */
  function Insert(sort: string, x: Product, s: seq<Product>): (r: seq<Product>)
    requires Sorted(sort, s)
    ensures Sorted(sort, r)
    ensures multiset(r) == multiset(s) + multiset{x}
    ensures |r| == |s| + 1
    ensures r[0] == x || (|s| > 0 && r[0] == s[0])
  {
    if |s| == 0 then [x]
    else if Before(sort, x, s[0]) then [x] + s
    else
      BeforeTotal(sort, x, s[0]);
      var rest := Insert(sort, x, s[1..]);
      assert s == [s[0]] + s[1..];
      [s[0]] + rest
  }

  /** A stable insertion sort by the requested key. */
  function SortBy(sort: string, s: seq<Product>): (r: seq<Product>)
    ensures Sorted(sort, r)
    ensures multiset(r) == multiset(s)
  {
    if |s| == 0 then []
    else
      assert s == [s[0]] + s[1..];
      Insert(sort, s[0], SortBy(sort, s[1..]))
  }

  /** Adjacent order gives order between any two rows. */
  lemma {:induction false} SortedPairwise(sort: string, s: seq<Product>, i: nat, j: nat)
    requires Sorted(sort, s)
    requires i < j < |s|
    ensures Before(sort, s[i], s[j])
    decreases j - i
  {
    if i + 1 < j {
      SortedPairwise(sort, s, i + 1, j);
      BeforeTransitive(sort, s[i], s[i + 1], s[j]);
    }
  }

  /** Every row of a sorted list comes no later than every row after it. */
  lemma SortedAll(sort: string, s: seq<Product>)
    requires Sorted(sort, s)
    ensures forall i, j :: 0 <= i < j < |s| ==> Before(sort, s[i], s[j])
  {
    forall i, j | 0 <= i < j < |s| ensures Before(sort, s[i], s[j]) {
      SortedPairwise(sort, s, i, j);
    }
  }

  /** Reordering listed rows leaves only listed rows. */
  lemma PermutationListed(a: seq<Product>, b: seq<Product>, category: string, search: string)
    requires multiset(a) == multiset(b)
    requires forall i :: 0 <= i < |a| ==> Listed(a[i], category, search)
    ensures forall j :: 0 <= j < |b| ==> Listed(b[j], category, search)
  {
    forall j | 0 <= j < |b| ensures Listed(b[j], category, search) {
      assert b[j] in multiset(a);
    }
  }

  /**
   `product_list`: an unknown category slug is a 404; otherwise the listed
   products, each as often as it occurs in the table, in the requested order.
   */
  function ProductList(rows: seq<Product>, categories: set<string>, category: string, search: string, sort: string)
    : (r: Result<seq<Product>, CatalogError>)
    ensures r.Failure? <==> category != "" && category !in categories
    ensures r.Success? ==> forall i :: 0 <= i < |r.value| ==> Listed(r.value[i], category, search)
    ensures r.Success? ==> forall p :: multiset(r.value)[p] == if Listed(p, category, search) then multiset(rows)[p] else 0
    ensures r.Success? ==> forall i, j :: 0 <= i < j < |r.value| ==> Before(sort, r.value[i], r.value[j])
  {
    if category != "" && category !in categories then Failure(CategoryNotFound)
    else
      var selected := Select(rows, category, search);
      var listed := SortBy(sort, selected);
      PermutationListed(selected, listed, category, search);
      SortedAll(sort, listed);
      Success(listed)
  }
}
