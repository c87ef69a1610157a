/**
 * The dashboard's figures (src/app/dashboard/page.tsx) and the product
 * table's category-name lookup and status badge
 * (src/app/dashboard/products/page.tsx).
 */
module Dashboard {
  import opened Wrappers
  import opened Types
  import opened Lists

  /**
   * `products.filter(p => p.status === 'active').length`: the active
   * products and the others together are all of them, none is counted
   * exactly when no product is active, all exactly when every one is.
   */
  function ActiveCount(products: seq<Product>): (r: nat)
    ensures r + |RemoveWhere(products, ProductStatus, Active)| == |products|
    ensures r == 0 <==> forall i :: 0 <= i < |products| ==> products[i].status != Active
    ensures r == |products| <==> forall i :: 0 <= i < |products| ==> products[i].status == Active
  {
    if products == [] then 0
    else
      var rest := products[1..];
      assert forall i :: 0 < i < |products| ==> products[i] == rest[i - 1];
      (if products[0].status == Active then 1 else 0) + ActiveCount(rest)
  }

  /** Counting as the list grows: a new product adds one exactly when it is active. */
  lemma {:induction false} ActiveCountAppend(products: seq<Product>, p: Product)
    ensures ActiveCount([]) == 0
    ensures ActiveCount(products + [p]) == ActiveCount(products) + (if p.status == Active then 1 else 0)
  {
    var grown := products + [p];
    if products == [] {
      assert grown == [p] && grown[1..] == [];
    } else {
      assert grown[0] == products[0] && grown[1..] == products[1..] + [p];
      ActiveCountAppend(products[1..], p);
    }
  }

  /** No product has a negative stock (checked from the end, as the folds run). */
  predicate StocksNonNegative(products: seq<Product>)
    decreases |products|
  {
    products == [] || (StocksNonNegative(products[..|products| - 1]) && products[|products| - 1].stock >= 0)
  }

  /** No product has a negative price or a negative stock. */
  predicate ValuesNonNegative(products: seq<Product>)
    decreases |products|
  {
    products == [] ||
    (ValuesNonNegative(products[..|products| - 1]) && products[|products| - 1].price >= 0.0 && products[|products| - 1].stock >= 0)
  }

  /** `products.reduce((sum, p) => sum + p.stock, 0)`, a left fold; never negative while no stock is. */
  function TotalStock(products: seq<Product>): (r: int)
    ensures StocksNonNegative(products) ==> r >= 0
    decreases |products|
  {
    if products == [] then 0
    else TotalStock(products[..|products| - 1]) + products[|products| - 1].stock
  }

  /**
   * `products.reduce((sum, p) => sum + (p.price * p.stock), 0)`, a left
   * fold; never negative while no price and no stock is.
   */
  function InventoryValue(products: seq<Product>): (r: real)
    ensures ValuesNonNegative(products) ==> r >= 0.0
    decreases |products|
  {
    if products == [] then 0.0
    else InventoryValue(products[..|products| - 1]) + products[|products| - 1].price * (products[|products| - 1].stock as real)
  }

  /** `categories.length` */
  function TotalCategories(categories: seq<Category>): (r: nat)
    ensures r == |categories|
    ensures r == 0 <==> categories == []
  {
    |categories|
  }

  /** Appending a product adds exactly its stock and its price times stock. */
  lemma AppendAdds(products: seq<Product>, p: Product)
    ensures TotalStock(products + [p]) == TotalStock(products) + p.stock
    ensures InventoryValue(products + [p]) == InventoryValue(products) + p.price * (p.stock as real)
  {
    assert (products + [p])[..|products|] == products;
  }

  /** The totals of two lists together are the sums of their totals, whatever the split. */
  lemma {:induction false} TotalsConcat(a: seq<Product>, b: seq<Product>)
    ensures TotalStock(a + b) == TotalStock(a) + TotalStock(b)
    ensures InventoryValue(a + b) == InventoryValue(a) + InventoryValue(b)
    decreases |b|
  {
    if b == [] {
      assert a + b == a;
    } else {
      var init, last := b[..|b| - 1], b[|b| - 1];
      TotalsConcat(a, init);
      assert a + b == (a + init) + [last];
      AppendAdds(a + init, last);
      AppendAdds(init, last);
      assert init + [last] == b;
    }
  }

  /** With no negative stock, the total is at least each product's stock (and so never negative). */
  lemma {:induction false} TotalStockBounds(products: seq<Product>)
    requires forall i :: 0 <= i < |products| ==> products[i].stock >= 0
    ensures TotalStock(products) >= 0
    ensures forall i :: 0 <= i < |products| ==> products[i].stock <= TotalStock(products)
    decreases |products|
  {
    if products != [] {
      var init := products[..|products| - 1];
      TotalStockBounds(init);
      assert forall i :: 0 <= i < |init| ==> init[i] == products[i];
    }
  }

  /** The totals of a list are the totals of its active and its other products together. */
  lemma {:induction false} TotalsSplitByStatus(products: seq<Product>)
    ensures TotalStock(products) == TotalStock(KeepWhere(products, ProductStatus, Active)) + TotalStock(RemoveWhere(products, ProductStatus, Active))
    ensures InventoryValue(products) == InventoryValue(KeepWhere(products, ProductStatus, Active)) + InventoryValue(RemoveWhere(products, ProductStatus, Active))
    decreases |products|
  {
    if products != [] {
      var p, rest := products[0], products[1..];
      TotalsSplitByStatus(rest);
      var kept, removed := KeepWhere(rest, ProductStatus, Active), RemoveWhere(rest, ProductStatus, Active);
      var keptHead, removedHead := if p.status == Active then [p] else [], if p.status == Active then [] else [p];
      FilterFront(products, ProductStatus, Active);
      TotalsOfFront(products);
      TotalsConcat(keptHead, kept);
      TotalsConcat(removedHead, removed);
      TotalsOfOne(p, keptHead, removedHead);
      SplitSums(TotalStock(products), TotalStock([p]), TotalStock(rest), TotalStock(keptHead), TotalStock(removedHead),
                TotalStock(kept), TotalStock(removed),
                TotalStock(KeepWhere(products, ProductStatus, Active)), TotalStock(RemoveWhere(products, ProductStatus, Active)));
      SplitValues(InventoryValue(products), InventoryValue([p]), InventoryValue(rest), InventoryValue(keptHead), InventoryValue(removedHead),
                  InventoryValue(kept), InventoryValue(removed),
                  InventoryValue(KeepWhere(products, ProductStatus, Active)), InventoryValue(RemoveWhere(products, ProductStatus, Active)));
    }
  }

  /** The arithmetic of one split step: the head's and the tail's parts add up to the parts of the whole. */
  lemma SplitSums(whole: int, head: int, tail: int, headKept: int, headRemoved: int,
                  tailKept: int, tailRemoved: int, kept: int, removed: int)
    requires whole == head + tail && head == headKept + headRemoved && tail == tailKept + tailRemoved
    requires kept == headKept + tailKept && removed == headRemoved + tailRemoved
    ensures whole == kept + removed
  {
  }

  lemma SplitValues(whole: real, head: real, tail: real, headKept: real, headRemoved: real,
                    tailKept: real, tailRemoved: real, kept: real, removed: real)
    requires whole == head + tail && head == headKept + headRemoved && tail == tailKept + tailRemoved
    requires kept == headKept + tailKept && removed == headRemoved + tailRemoved
    ensures whole == kept + removed
  {
  }

  /** The totals of a non-empty list are its first product's plus the rest's. */
  lemma TotalsOfFront(products: seq<Product>)
    requires products != []
    ensures TotalStock(products) == TotalStock([products[0]]) + TotalStock(products[1..])
    ensures InventoryValue(products) == InventoryValue([products[0]]) + InventoryValue(products[1..])
  {
    assert [products[0]] + products[1..] == products;
    TotalsConcat([products[0]], products[1..]);
  }

  /** One product's totals land wholly on one side of a split. */
  lemma TotalsOfOne(p: Product, kept: seq<Product>, removed: seq<Product>)
    requires (kept == [p] && removed == []) || (kept == [] && removed == [p])
    ensures TotalStock([p]) == TotalStock(kept) + TotalStock(removed)
    ensures InventoryValue([p]) == InventoryValue(kept) + InventoryValue(removed)
  {
  }

  /** `categories.find(c => c.id === categoryId)?.name || 'Uncategorized'` */
  function CategoryName(categories: seq<Category>, categoryId: string): (r: string)
    ensures (forall i :: 0 <= i < |categories| ==> categories[i].id != categoryId) ==> r == "Uncategorized"
    ensures forall i :: 0 <= i < |categories| && categories[i].id == categoryId
                        && (forall j :: 0 <= j < i ==> categories[j].id != categoryId) ==>
              r == if categories[i].name == "" then "Uncategorized" else categories[i].name
    ensures r != ""
  {
    match Find(categories, CategoryId, categoryId)
    case Some(c) => if c.name == "" then "Uncategorized" else c.name
    case None => "Uncategorized"
  }

  datatype BadgeVariant = Default | Secondary | Destructive | Outline

  /** `variants[status] || 'default'` over the table { active: default, draft: secondary, inactive: outline }. */
  function StatusBadge(status: string): (v: BadgeVariant)
    ensures v == Secondary <==> status == "draft"
    ensures v == Outline <==> status == "inactive"
    ensures v == Default <==> status != "draft" && status != "inactive"
    ensures v != Destructive
  {
    if status == "active" then Default
    else if status == "draft" then Secondary
    else if status == "inactive" then Outline
    else Default
  }

  /** The spelling of each stored status. */
  function StatusName(s: Status): string {
    match s
    case Active => "active"
    case Inactive => "inactive"
    case Draft => "draft"
  }

  /** The three stored statuses get three different badges. */
  lemma StatusBadgesDistinct(s: Status, t: Status)
    ensures StatusBadge(StatusName(s)) == StatusBadge(StatusName(t)) <==> s == t
  {
  }
}
