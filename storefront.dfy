/**
 * The storefront's product list (src/app/home-content.tsx): keep the active
 * products, then those of the chosen category, then the fuzzy-search hits,
 * then sort in place by the chosen order.
 *
 * The fuzzy search (a foreign library) is the parameter `fuzzy`, and
 * `localeCompare` is a collation rank `collate`; the properties below are
 * stated with no search term.
 */
module Storefront {
  import opened Wrappers
  import opened Types
  import opened Lists
  import opened Sorting
  import opened SearchParams

  datatype SortOrder = PriceAsc | PriceDesc | NameAsc | NameDesc | Newest

  /** The `switch (sort)`: absent, '', 'default' and unrecognised values select no sort. */
  function ParseSort(sort: Option<string>): (r: Option<SortOrder>)
    ensures r.Some? <==> sort.Some? && sort.value in {"price-asc", "price-desc", "name-asc", "name-desc", "newest"}
  {
    match sort
    case None => None
    case Some(s) =>
      if s == "price-asc" then Some(PriceAsc)
      else if s == "price-desc" then Some(PriceDesc)
      else if s == "name-asc" then Some(NameAsc)
      else if s == "name-desc" then Some(NameDesc)
      else if s == "newest" then Some(Newest)
      else None
  }

  /**
   * Each comparator `(a, b) => key(a) - key(b)` as an ascending key; the
   * descending orders negate it.
   */
  function SortKey(order: SortOrder, collate: string -> real): Product -> real {
    match order
    case PriceAsc => (p: Product) => p.price
    case PriceDesc => (p: Product) => -p.price
    case NameAsc => (p: Product) => collate(p.name)
    case NameDesc => (p: Product) => -collate(p.name)
    case Newest => (p: Product) => -(p.createdAt as real)
  }

  /** The category filter in force: a value that is present, non-empty and not 'all'. */
  function CategoryFilter(params: seq<Pair>): Option<string> {
    match Lookup(params, "category")
    case Some(c) => if c != "" && c != "all" then Some(c) else None
    case None => None
  }

  /** The search term in force: a value that is present and non-empty. */
  function SearchTerm(params: seq<Pair>): Option<string> {
    match Lookup(params, "search")
    case Some(s) => if s != "" then Some(s) else None
    case None => None
  }

  /** The list before sorting, given the category filter and search term in force. */
  function FilteredBy(products: seq<Product>, category: Option<string>, search: Option<string>,
                      fuzzy: (seq<Product>, string) -> seq<Product>): seq<Product>
  {
    var active := KeepWhere(products, ProductStatus, Active);
    var inCategory := if category.Some? then KeepWhere(active, ProductCategory, category.value) else active;
    if search.Some? then fuzzy(inCategory, search.value) else inCategory
  }

  /** The list sorted by the order in force, if any. */
  function Arranged(items: seq<Product>, order: Option<SortOrder>, collate: string -> real): seq<Product> {
    if order.Some? then SortBy(items, SortKey(order.value, collate)) else items
  }

  /** The list before sorting. */
  function Filtered(products: seq<Product>, params: seq<Pair>, fuzzy: (seq<Product>, string) -> seq<Product>): seq<Product> {
    FilteredBy(products, CategoryFilter(params), SearchTerm(params), fuzzy)
  }

  /** The list the storefront displays: the filtered list, reordered and nothing else. */
  function Displayed(products: seq<Product>, params: seq<Pair>, collate: string -> real,
                     fuzzy: (seq<Product>, string) -> seq<Product>): (r: seq<Product>)
    ensures multiset(r) == multiset(Filtered(products, params, fuzzy))
    ensures |r| == |Filtered(products, params, fuzzy)|
  {
    var order := ParseSort(Lookup(params, "sort"));
    var filtered := Filtered(products, params, fuzzy);
    if order.Some? then SortByPermutes(filtered, SortKey(order.value, collate)); Arranged(filtered, order, collate)
    else Arranged(filtered, order, collate)
  }

  /** The filter-and-sort effect: reassigns `result` and sorts it in place. */
  method FilterAndSort(products: seq<Product>, params: seq<Pair>, collate: string -> real,
                       fuzzy: (seq<Product>, string) -> seq<Product>) returns (result: seq<Product>)
    ensures result == Displayed(products, params, collate, fuzzy)
  {
    result := KeepWhere(products, ProductStatus, Active);
    var category := Lookup(params, "category");
    if category.Some? && category.value != "" && category.value != "all" {
      result := KeepWhere(result, ProductCategory, category.value);
    }
    assert CategoryFilter(params) == (if category.Some? && category.value != "" && category.value != "all" then category else None);
    var search := Lookup(params, "search");
    if search.Some? && search.value != "" {
      result := fuzzy(result, search.value);
    }
    assert SearchTerm(params) == (if search.Some? && search.value != "" then search else None);
    assert result == Filtered(products, params, fuzzy);
    var sort := Lookup(params, "sort");
    ghost var filtered := result;
    if sort.Some? && sort.value != "" && sort.value != "default" {
      var order := ParseSort(sort);
      if order.Some? {
        result := SortedCopy(result, SortKey(order.value, collate));
      }
    } else {
      SortNames();
    }
    assert result == Arranged(filtered, ParseSort(sort), collate);
  }

  /** `result.sort(cmp)` on an array holding the list. */
  method SortedCopy(items: seq<Product>, key: Product -> real) returns (sorted: seq<Product>)
    ensures sorted == SortBy(items, key)
  {
    var a := new Product[|items|](i requires 0 <= i < |items| => items[i]);
    assert a[..] == items;
    SortInPlace(a, key);
    sorted := a[..];
  }

  /** Keeping the entries that pass both filters, one at a time from the front. */
  predicate Passes(p: Product, category: Option<string>) {
    p.status == Active && (category.None? || p.categoryId == category.value)
  }

  function Selected(products: seq<Product>, category: Option<string>): seq<Product> {
    if products == [] then []
    else (if Passes(products[0], category) then [products[0]] else []) + Selected(products[1..], category)
  }

  lemma {:induction false} KeepActiveIsSelection(products: seq<Product>)
    ensures KeepWhere(products, ProductStatus, Active) == Selected(products, None)
  {
    if products != [] {
      KeepActiveIsSelection(products[1..]);
    }
  }

  lemma {:induction false} KeepActiveThenCategory(products: seq<Product>, category: string)
    ensures KeepWhere(KeepWhere(products, ProductStatus, Active), ProductCategory, category) == Selected(products, Some(category))
  {
    if products != [] {
      var head := if products[0].status == Active then [products[0]] else [];
      var rest := KeepWhere(products[1..], ProductStatus, Active);
      assert KeepWhere(products, ProductStatus, Active) == head + rest;
      KeepWhereAppend(head, rest, ProductCategory, category);
      KeepActiveThenCategory(products[1..], category);
      if head != [] {
        assert head[1..] == [];
      }
      assert KeepWhere(head, ProductCategory, category)
          == if Passes(products[0], Some(category)) then [products[0]] else [];
    }
  }

  /**
   * With no search term, the list before sorting is the order-preserving
   * subsequence of the products that are active and in the chosen category.
   */
  lemma FilteredIsSelection(products: seq<Product>, params: seq<Pair>, fuzzy: (seq<Product>, string) -> seq<Product>)
    requires SearchTerm(params).None?
    ensures Filtered(products, params, fuzzy) == Selected(products, CategoryFilter(params))
  {
    if CategoryFilter(params).Some? {
      KeepActiveThenCategory(products, CategoryFilter(params).value);
    } else {
      KeepActiveIsSelection(products);
    }
  }

  /** With no search term, only active products of the chosen category are displayed. */
  lemma DisplayedActiveInCategory(products: seq<Product>, params: seq<Pair>, collate: string -> real,
                                  fuzzy: (seq<Product>, string) -> seq<Product>)
    requires SearchTerm(params).None?
    ensures forall i :: 0 <= i < |Displayed(products, params, collate, fuzzy)| ==>
      Displayed(products, params, collate, fuzzy)[i].status == Active
    ensures CategoryFilter(params).Some? ==> forall i :: 0 <= i < |Displayed(products, params, collate, fuzzy)| ==>
      Displayed(products, params, collate, fuzzy)[i].categoryId == CategoryFilter(params).value
  {
    var shown := Displayed(products, params, collate, fuzzy);
    var filtered := Filtered(products, params, fuzzy);
    forall i | 0 <= i < |shown|
      ensures shown[i].status == Active
      ensures CategoryFilter(params).Some? ==> shown[i].categoryId == CategoryFilter(params).value
    {
      assert shown[i] in multiset(filtered);
      var j :| 0 <= j < |filtered| && filtered[j] == shown[i];
      var active := KeepWhere(products, ProductStatus, Active);
      if CategoryFilter(params).Some? {
        var k :| 0 <= k < |active| && active[k] == filtered[j];
        assert ProductStatus(active[k]) == Active;
        assert ProductCategory(filtered[j]) == CategoryFilter(params).value;
      } else {
        assert ProductStatus(active[j]) == Active;
      }
    }
  }

  /** A category parameter of 'all' or '' shows the same list as no category parameter. */
  lemma AllCategoriesIsNoCategory(products: seq<Product>, params: seq<Pair>, collate: string -> real,
                                  fuzzy: (seq<Product>, string) -> seq<Product>, value: string)
    requires value == "all" || value == ""
    ensures Displayed(products, WithSet(params, "category", value), collate, fuzzy)
         == Displayed(products, WithDeleted(params, "category"), collate, fuzzy)
  {
    var withAll, deleted := WithSet(params, "category", value), WithDeleted(params, "category");
    LookupAfterSet(params, "category", value);
    assert Find(RemoveWhere(params, PairName, "category"), PairName, "category").None?;
    assert CategoryFilter(withAll) == None == CategoryFilter(deleted);
    LookupAfterSetOther(params, "category", value, "search");
    LookupAfterDeleteOther(params, "category", "search");
    assert SearchTerm(withAll) == SearchTerm(deleted);
    LookupAfterSetOther(params, "category", value, "sort");
    LookupAfterDeleteOther(params, "category", "sort");
    assert Filtered(products, withAll, fuzzy) == Filtered(products, deleted, fuzzy);
  }

  /** The chosen order holds in the displayed list, whatever the search term. */
  lemma DisplayedOrdered(products: seq<Product>, params: seq<Pair>, collate: string -> real,
                         fuzzy: (seq<Product>, string) -> seq<Product>)
    ensures var r := Displayed(products, params, collate, fuzzy);
      Lookup(params, "sort") == Some("price-asc") ==> forall i, j :: 0 <= i < j < |r| ==> r[i].price <= r[j].price
    ensures var r := Displayed(products, params, collate, fuzzy);
      Lookup(params, "sort") == Some("price-desc") ==> forall i, j :: 0 <= i < j < |r| ==> r[i].price >= r[j].price
    ensures var r := Displayed(products, params, collate, fuzzy);
      Lookup(params, "sort") == Some("name-asc") ==> forall i, j :: 0 <= i < j < |r| ==> collate(r[i].name) <= collate(r[j].name)
    ensures var r := Displayed(products, params, collate, fuzzy);
      Lookup(params, "sort") == Some("name-desc") ==> forall i, j :: 0 <= i < j < |r| ==> collate(r[i].name) >= collate(r[j].name)
    ensures var r := Displayed(products, params, collate, fuzzy);
      Lookup(params, "sort") == Some("newest") ==> forall i, j :: 0 <= i < j < |r| ==> r[i].createdAt >= r[j].createdAt
  {
    var order := ParseSort(Lookup(params, "sort"));
    SortNames();
    if order.Some? {
      ArrangedOrdered(Filtered(products, params, fuzzy), order.value, collate);
    }
  }

  /** The five recognised sort values and the order each selects. */
  lemma SortNames()
    ensures ParseSort(Some("price-asc")) == Some(PriceAsc) && ParseSort(Some("price-desc")) == Some(PriceDesc)
    ensures ParseSort(Some("name-asc")) == Some(NameAsc) && ParseSort(Some("name-desc")) == Some(NameDesc)
    ensures ParseSort(Some("newest")) == Some(Newest)
    ensures ParseSort(Some("")) == None && ParseSort(Some("default")) == None
  {
  }

  /** Sorting by an order makes its key ascend. */
  lemma ArrangedOrdered(items: seq<Product>, order: SortOrder, collate: string -> real)
    ensures var r := Arranged(items, Some(order), collate);
      forall i, j :: 0 <= i < j < |r| ==> SortKey(order, collate)(r[i]) <= SortKey(order, collate)(r[j])
  {
    SortBySorted(items, SortKey(order, collate));
  }

  /** An absent, 'default' or unrecognised sort value keeps the filtered order: the switch has no default branch. */
  lemma UnrecognisedSortKeepsOrder(products: seq<Product>, params: seq<Pair>, collate: string -> real,
                                   fuzzy: (seq<Product>, string) -> seq<Product>)
    requires forall s :: Lookup(params, "sort") == Some(s) ==>
      s != "price-asc" && s != "price-desc" && s != "name-asc" && s != "name-desc" && s != "newest"
    ensures Displayed(products, params, collate, fuzzy) == Filtered(products, params, fuzzy)
  {
  }

  /** Products with equal sort keys keep their filtered order. */
  lemma DisplayedStable(products: seq<Product>, params: seq<Pair>, collate: string -> real,
                        fuzzy: (seq<Product>, string) -> seq<Product>, order: SortOrder, k: real)
    requires ParseSort(Lookup(params, "sort")) == Some(order)
    ensures KeepWhere(Displayed(products, params, collate, fuzzy), SortKey(order, collate), k)
         == KeepWhere(Filtered(products, params, fuzzy), SortKey(order, collate), k)
  {
    SortByStable(Filtered(products, params, fuzzy), SortKey(order, collate), k);
  }

  function Sample(id: string, price: real, status: Status): Product {
    Product(id, id, id, "", price, 1, "c", "", status, 0, 0)
  }

  /** Two active products and a draft, sorted by ascending price: the draft is dropped and the cheaper comes first. */
  lemma PriceAscExample(collate: string -> real, fuzzy: (seq<Product>, string) -> seq<Product>)
    ensures Displayed([Sample("a", 10.0, Active), Sample("b", 5.0, Active), Sample("c", 20.0, Draft)],
                      [("sort", "price-asc")], collate, fuzzy)
         == [Sample("b", 5.0, Active), Sample("a", 10.0, Active)]
  {
    var a, b, c := Sample("a", 10.0, Active), Sample("b", 5.0, Active), Sample("c", 20.0, Draft);
    var params := [("sort", "price-asc")];
    ExampleFiltered(a, b, c, params, fuzzy);
    SortNames();
    assert Lookup(params, "sort") == Some("price-asc");
    SortSwapsPair(a, b, SortKey(PriceAsc, collate));
  }

  lemma SortSwapsPair(a: Product, b: Product, key: Product -> real)
    requires key(b) < key(a)
    ensures SortBy([a, b], key) == [b, a]
  {
    assert [a, b][..1] == [a];
    assert SortBy([a], key) == [a] by { assert [a][..0] == []; }
    assert Insert([a], b, key) == [b, a] by { assert [a][..0] == []; }
  }

  lemma ExampleFiltered(a: Product, b: Product, c: Product, params: seq<Pair>, fuzzy: (seq<Product>, string) -> seq<Product>)
    requires a.status == Active && b.status == Active && c.status == Draft
    requires params == [("sort", "price-asc")]
    ensures Filtered([a, b, c], params, fuzzy) == [a, b]
  {
    assert Lookup(params, "category") == None;
    assert Lookup(params, "search") == None;
    assert [a, b, c][1..] == [b, c];
    assert [b, c][1..] == [c];
    assert [c][1..] == [];
    assert KeepWhere([c], ProductStatus, Active) == [];
    assert KeepWhere([b, c], ProductStatus, Active) == [b];
  }
}
