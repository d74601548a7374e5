/**
 * The cart model (app/Models/Cart.php). The `cart_items` relation is a sequence
 * of rows, one per product, in the order the relation yields them; each row
 * carries the pivot quantity and the product's price and category. The
 * discount engine only reads a cart; `Cart` below is the state machine that
 * `addItem`, `removeItem` and `clear` drive.
 */
module Carts {
  import opened Wrappers

  type ProductId = int

  /** A row of the products table: what a cart row copies from it. */
  datatype Product = Product(price: real, category: Option<int>)

  /** One product in the cart with its pivot quantity. */
  datatype Row = Row(product: ProductId, price: real, quantity: int, category: Option<int>)

  type CartRows = seq<Row>

  /** The pivot table holds at most one row per product. */
  predicate DistinctProducts(rows: CartRows) {
    forall i, j :: 0 <= i < j < |rows| ==> rows[i].product != rows[j].product
  }

  predicate PositiveQuantities(rows: CartRows) {
    forall i :: 0 <= i < |rows| ==> rows[i].quantity >= 1
  }

  /** What `addItem` and `removeItem` keep: one row per product, every quantity at least 1. */
  predicate WellFormed(rows: CartRows) {
    DistinctProducts(rows) && PositiveQuantities(rows)
  }

  /** Every row refers to a product of the catalog and shows its price and category. */
  predicate MatchesCatalog(rows: CartRows, catalog: map<ProductId, Product>) {
    forall i :: 0 <= i < |rows| ==>
      rows[i].product in catalog && catalog[rows[i].product] == Product(rows[i].price, rows[i].category)
  }

  /** What one row adds to the total: `$product->price * $product->pivot->quantity`. */
  function LineAmount(r: Row): real {
    r.price * (r.quantity as real)
  }

  /** `total()`: the sum of price times quantity over the rows, accumulated first to last. */
  function Subtotal(rows: CartRows): real {
    if rows == [] then 0.0
    else Subtotal(rows[..|rows| - 1]) + LineAmount(rows[|rows| - 1])
  }

  /** The position of the first row for product `p` (`->where('products.id', $p)->first()`). */
  function IndexOf(rows: CartRows, p: ProductId): (r: Option<nat>)
    ensures r.Some? ==> r.value < |rows| && rows[r.value].product == p
    ensures r.Some? ==> forall j :: 0 <= j < r.value ==> rows[j].product != p
    ensures r.None? ==> forall j :: 0 <= j < |rows| ==> rows[j].product != p
  {
    if rows == [] then None
    else if rows[0].product == p then Some(0)
    else match IndexOf(rows[1..], p)
      case None => None
      case Some(i) => Some(i + 1)
  }

  /** `getProductQuantity(p)`: the pivot quantity of `p`, or 0 when the cart does not hold it. */
  function Quantity(rows: CartRows, p: ProductId): (q: int)
    ensures (forall j :: 0 <= j < |rows| ==> rows[j].product != p) ==> q == 0
    ensures DistinctProducts(rows) ==>
      forall j :: 0 <= j < |rows| && rows[j].product == p ==> q == rows[j].quantity
  {
    match IndexOf(rows, p)
    case None => 0
    case Some(i) => rows[i].quantity
  }

  /** `getProductCategoryIds()`: the distinct non-null category ids of the cart's products. */
  function CategoryIds(rows: CartRows): (cats: set<int>)
    ensures forall c :: c in cats <==> exists i :: 0 <= i < |rows| && rows[i].category == Some(c)
  {
    if rows == [] then {}
    else
      var last := rows[|rows| - 1];
      assert forall i :: 0 <= i < |rows| - 1 ==> rows[..|rows| - 1][i] == rows[i];
      CategoryIds(rows[..|rows| - 1]) + (if last.category.Some? then {last.category.value} else {})
  }

  /** The rows after `addItem(p)`: one more of a held product, else a new row with quantity 1. */
  function Added(rows: CartRows, p: ProductId, product: Product): CartRows {
    match IndexOf(rows, p)
    case Some(i) => rows[i := rows[i].(quantity := rows[i].quantity + 1)]
    case None => rows + [Row(p, product.price, 1, product.category)]
  }

  /** The rows after `removeItem(p)`: one fewer, the row dropped at quantity 1, nothing if absent. */
  function Removed(rows: CartRows, p: ProductId): CartRows {
    match IndexOf(rows, p)
    case None => rows
    case Some(i) =>
      if rows[i].quantity > 1 then rows[i := rows[i].(quantity := rows[i].quantity - 1)]
      else rows[..i] + rows[i + 1..]
  }

  lemma IndexOfIs(rows: CartRows, p: ProductId, i: nat)
    requires i < |rows| && rows[i].product == p
    requires forall j :: 0 <= j < i ==> rows[j].product != p
    ensures IndexOf(rows, p) == Some(i)
  {
  }

  lemma {:induction false} SubtotalConcat(a: CartRows, b: CartRows)
    ensures Subtotal(a + b) == Subtotal(a) + Subtotal(b)
    decreases |b|
  {
    if b == [] {
      assert a + b == a;
    } else {
      var n := |b| - 1;
      assert (a + b)[..|a + b| - 1] == a + b[..n];
      SubtotalConcat(a, b[..n]);
    }
  }

  /** The subtotal of a cart split around row `i`. */
  lemma SubtotalAround(rows: CartRows, i: nat)
    requires i < |rows|
    ensures Subtotal(rows) == Subtotal(rows[..i]) + LineAmount(rows[i]) + Subtotal(rows[i + 1..])
  {
    var a, r, b := rows[..i], rows[i], rows[i + 1..];
    assert rows == (a + [r]) + b;
    SubtotalConcat(a + [r], b);
    assert (a + [r])[..|a|] == a;
  }

  /** Replacing one row changes the subtotal by the difference of the two rows' amounts. */
  lemma SubtotalUpdate(rows: CartRows, i: nat, r: Row)
    requires i < |rows|
    ensures Subtotal(rows[i := r]) == Subtotal(rows) - LineAmount(rows[i]) + LineAmount(r)
  {
    var s := rows[i := r];
    SubtotalAround(rows, i);
    SubtotalAround(s, i);
    assert s[..i] == rows[..i] && s[i + 1..] == rows[i + 1..];
  }

  /** Dropping one row lowers the subtotal by that row's amount. */
  lemma SubtotalDelete(rows: CartRows, i: nat)
    requires i < |rows|
    ensures Subtotal(rows[..i] + rows[i + 1..]) == Subtotal(rows) - LineAmount(rows[i])
  {
    SubtotalAround(rows, i);
    SubtotalConcat(rows[..i], rows[i + 1..]);
  }

  /** `addItem(p)` raises the quantity of `p` by one and leaves every other product alone. */
  lemma AddedQuantity(rows: CartRows, p: ProductId, product: Product, q: ProductId)
    ensures Quantity(Added(rows, p, product), q) == Quantity(rows, q) + (if q == p then 1 else 0)
  {
    var s := Added(rows, p, product);
    match IndexOf(rows, p)
    case Some(i) =>
      assert |s| == |rows| && forall j :: 0 <= j < |rows| ==> s[j].product == rows[j].product;
      match IndexOf(rows, q) {
        case None =>
          assert IndexOf(s, q).None?;
        case Some(k) =>
          IndexOfIs(s, q, k);
      }
    case None =>
      assert forall j :: 0 <= j < |rows| ==> s[j] == rows[j];
      match IndexOf(rows, q) {
        case None =>
          if q == p {
            IndexOfIs(s, q, |rows|);
          } else {
            assert IndexOf(s, q).None?;
          }
        case Some(k) =>
          IndexOfIs(s, q, k);
      }
  }

  /** `addItem` keeps one row per product, quantities positive, and the rows true to the catalog. */
  lemma AddedWellFormed(rows: CartRows, catalog: map<ProductId, Product>, p: ProductId)
    requires WellFormed(rows) && MatchesCatalog(rows, catalog) && p in catalog
    ensures WellFormed(Added(rows, p, catalog[p])) && MatchesCatalog(Added(rows, p, catalog[p]), catalog)
  {
  }

  /** On a well-formed cart, `removeItem(p)` lowers a held product's quantity by one and changes nothing else. */
  lemma RemovedQuantity(rows: CartRows, p: ProductId, q: ProductId)
    requires WellFormed(rows)
    ensures Quantity(Removed(rows, p), q) ==
      if q == p && Quantity(rows, p) > 0 then Quantity(rows, p) - 1 else Quantity(rows, q)
  {
    var s := Removed(rows, p);
    match IndexOf(rows, p)
    case None =>
    case Some(i) =>
      if rows[i].quantity > 1 {
        assert |s| == |rows| && forall j :: 0 <= j < |rows| ==> s[j].product == rows[j].product;
        match IndexOf(rows, q) {
          case None =>
            assert IndexOf(s, q).None?;
          case Some(k) =>
            IndexOfIs(s, q, k);
        }
      } else {
        assert forall j :: 0 <= j < |s| ==> s[j] == (if j < i then rows[j] else rows[j + 1]);
        assert DistinctProducts(s);
        if q == p {
          assert forall j :: 0 <= j < |s| ==> s[j].product != p;
        } else {
          match IndexOf(rows, q) {
            case None =>
              assert forall j :: 0 <= j < |s| ==> s[j].product != q;
            case Some(k) =>
              var k' := if k < i then k else k - 1;
              assert s[k'] == rows[k];
          }
        }
      }
  }

  /** `removeItem` keeps one row per product, quantities positive, and the rows true to the catalog. */
  lemma RemovedWellFormed(rows: CartRows, catalog: map<ProductId, Product>, p: ProductId)
    requires WellFormed(rows) && MatchesCatalog(rows, catalog)
    ensures WellFormed(Removed(rows, p)) && MatchesCatalog(Removed(rows, p), catalog)
  {
    match IndexOf(rows, p)
    case None =>
    case Some(i) =>
      var s := Removed(rows, p);
      if rows[i].quantity <= 1 {
        assert forall j :: 0 <= j < |s| ==> s[j] == (if j < i then rows[j] else rows[j + 1]);
      }
  }

  /** Adding a catalog product raises the subtotal by its catalog price. */
  lemma AddedSubtotal(rows: CartRows, catalog: map<ProductId, Product>, p: ProductId)
    requires MatchesCatalog(rows, catalog) && p in catalog
    ensures Subtotal(Added(rows, p, catalog[p])) == Subtotal(rows) + catalog[p].price
  {
    match IndexOf(rows, p)
    case Some(i) =>
      SubtotalUpdate(rows, i, rows[i].(quantity := rows[i].quantity + 1));
      LineAmountStep(rows[i], 1);
    case None =>
      var r := Row(p, catalog[p].price, 1, catalog[p].category);
      assert (rows + [r])[..|rows|] == rows;
  }

  /** One more or one fewer of a row's product moves its amount by exactly the price. */
  lemma LineAmountStep(r: Row, d: int)
    ensures LineAmount(r.(quantity := r.quantity + d)) == LineAmount(r) + (d as real) * r.price
  {
    assert ((r.quantity + d) as real) == (r.quantity as real) + (d as real);
    assert r.price * ((r.quantity as real) + (d as real)) == r.price * (r.quantity as real) + r.price * (d as real);
  }

  /** Removing a held product lowers the subtotal by its price; an absent product changes nothing. */
  lemma RemovedSubtotal(rows: CartRows, p: ProductId)
    requires PositiveQuantities(rows)
    ensures IndexOf(rows, p).None? ==> Subtotal(Removed(rows, p)) == Subtotal(rows)
    ensures IndexOf(rows, p).Some? ==>
      Subtotal(Removed(rows, p)) == Subtotal(rows) - rows[IndexOf(rows, p).value].price
  {
    match IndexOf(rows, p)
    case None =>
    case Some(i) =>
      var r := rows[i];
      if r.quantity > 1 {
        assert Removed(rows, p) == rows[i := r.(quantity := r.quantity - 1)];
        SubtotalUpdate(rows, i, r.(quantity := r.quantity - 1));
        LineAmountStep(r, -1);
      } else {
        assert Removed(rows, p) == rows[..i] + rows[i + 1..];
        SubtotalDelete(rows, i);
        assert r.quantity == 1;
        assert (r.quantity as real) == 1.0;
      }
  }

  /** `removeItem(p)` right after `addItem(p)` gives back exactly the rows there were before. */
  lemma RemoveUndoesAdd(rows: CartRows, p: ProductId, product: Product)
    requires WellFormed(rows)
    ensures Removed(Added(rows, p, product), p) == rows
  {
    var s := Added(rows, p, product);
    match IndexOf(rows, p)
    case Some(i) =>
      IndexOfIs(s, p, i);
      assert s[i := s[i].(quantity := s[i].quantity - 1)] == rows;
    case None =>
      IndexOfIs(s, p, |rows|);
      assert s[..|rows|] + s[|rows| + 1..] == rows;
  }

  /** The cart: the products table it may draw from and its rows. */
  class Cart {
    const catalog: map<ProductId, Product>
    var rows: CartRows

    ghost predicate Valid()
      reads this
    {
      WellFormed(rows) && MatchesCatalog(rows, catalog)
    }

    constructor (catalog: map<ProductId, Product>)
      ensures Valid() && this.catalog == catalog && rows == []
    {
      this.catalog := catalog;
      rows := [];
    }

    /** `total()`: the loop over the cart's products. */
    method Total() returns (t: real)
      ensures t == Subtotal(rows)
    {
      t := 0.0;
      var i := 0;
      while i < |rows|
        invariant 0 <= i <= |rows|
        invariant t == Subtotal(rows[..i])
      {
        assert rows[..i + 1][..i] == rows[..i];
        t := t + rows[i].price * (rows[i].quantity as real);
        assert t == Subtotal(rows[..i + 1]);
        i := i + 1;
      }
      assert rows[..|rows|] == rows;
    }

    /** `addItem($item, $price)`; the price argument is not used, the catalog price is. */
    method AddItem(item: ProductId, price: real)
      requires Valid() && item in catalog
      modifies this
      ensures Valid()
      ensures rows == Added(old(rows), item, catalog[item])
      ensures forall q :: Quantity(rows, q) == old(Quantity(rows, q)) + (if q == item then 1 else 0)
      ensures Subtotal(rows) == old(Subtotal(rows)) + catalog[item].price
    {
      AddedWellFormed(rows, catalog, item);
      AddedSubtotal(rows, catalog, item);
      forall q ensures Quantity(Added(rows, item, catalog[item]), q) == Quantity(rows, q) + (if q == item then 1 else 0) {
        AddedQuantity(rows, item, catalog[item], q);
      }
      var existing := IndexOf(rows, item);
      if existing.Some? {
        var i := existing.value;
        rows := rows[i := rows[i].(quantity := rows[i].quantity + 1)];
      } else {
        var product := catalog[item];
        rows := rows + [Row(item, product.price, 1, product.category)];
      }
    }

    /** `removeItem($item)`: decrement, drop the row at quantity 1, or do nothing if absent. */
    method RemoveItem(item: ProductId)
      requires Valid()
      modifies this
      ensures Valid()
      ensures rows == Removed(old(rows), item)
      ensures forall q ::
                Quantity(rows, q) == if q == item && old(Quantity(rows, item)) > 0
                                     then old(Quantity(rows, item)) - 1 else old(Quantity(rows, q))
    {
      RemovedWellFormed(rows, catalog, item);
      forall q ensures Quantity(Removed(rows, item), q) ==
        (if q == item && Quantity(rows, item) > 0 then Quantity(rows, item) - 1 else Quantity(rows, q))
      {
        RemovedQuantity(rows, item, q);
      }
      var existing := IndexOf(rows, item);
      if existing.Some? {
        var i := existing.value;
        if rows[i].quantity > 1 {
          rows := rows[i := rows[i].(quantity := rows[i].quantity - 1)];
        } else {
          rows := rows[..i] + rows[i + 1..];
        }
      }
    }

    /** `clear()`: detach every product. */
    method Clear()
      modifies this
      ensures Valid() && rows == []
      ensures Subtotal(rows) == 0.0 && forall q :: Quantity(rows, q) == 0
    {
      rows := [];
    }
  }
}
