/**
 * The storefront's entities. Prices are real numbers, stock an integer and
 * the two timestamps integers (the ISO strings of the source, read as
 * instants). A `Partial<Product>` update is a patch whose `Some` fields
 * are the keys the update object carries.
 */
module Types {
  import opened Wrappers

  datatype Status = Active | Inactive | Draft

  datatype Product = Product(
    id: string,
    name: string,
    slug: string,
    description: string,
    price: real,
    stock: int,
    categoryId: string,
    image: string,
    status: Status,
    createdAt: int,
    updatedAt: int)

  datatype Category = Category(id: string, name: string, slug: string, description: string)

  // Keys by which the stores and the storefront look entries up.
  function ProductId(p: Product): string { p.id }
  function ProductSlug(p: Product): string { p.slug }
  function ProductStatus(p: Product): Status { p.status }
  function ProductCategory(p: Product): string { p.categoryId }
  function CategoryId(c: Category): string { c.id }
  function CategorySlug(c: Category): string { c.slug }

  /** A `Partial<Product>`: every key the update object may carry. */
  datatype ProductPatch = ProductPatch(
    id: Option<string>,
    name: Option<string>,
    slug: Option<string>,
    description: Option<string>,
    price: Option<real>,
    stock: Option<int>,
    categoryId: Option<string>,
    image: Option<string>,
    status: Option<Status>,
    createdAt: Option<int>,
    updatedAt: Option<int>)

  /** A `Partial<Category>`. */
  datatype CategoryPatch = CategoryPatch(
    id: Option<string>,
    name: Option<string>,
    slug: Option<string>,
    description: Option<string>)

  /** One key of an object spread: the update's value when it carries the key. */
  function Override<T>(current: T, update: Option<T>): T {
    match update
    case Some(v) => v
    case None => current
  }

  /** Every key the update carries is taken from it; every other key is kept. */
  ghost predicate Spread(p: Product, u: ProductPatch, r: Product) {
    && (u.id.None? ==> r.id == p.id) && (u.id.Some? ==> r.id == u.id.value)
    && (u.name.None? ==> r.name == p.name) && (u.name.Some? ==> r.name == u.name.value)
    && (u.slug.None? ==> r.slug == p.slug) && (u.slug.Some? ==> r.slug == u.slug.value)
    && (u.description.None? ==> r.description == p.description) && (u.description.Some? ==> r.description == u.description.value)
    && (u.price.None? ==> r.price == p.price) && (u.price.Some? ==> r.price == u.price.value)
    && (u.stock.None? ==> r.stock == p.stock) && (u.stock.Some? ==> r.stock == u.stock.value)
    && (u.categoryId.None? ==> r.categoryId == p.categoryId) && (u.categoryId.Some? ==> r.categoryId == u.categoryId.value)
    && (u.image.None? ==> r.image == p.image) && (u.image.Some? ==> r.image == u.image.value)
    && (u.status.None? ==> r.status == p.status) && (u.status.Some? ==> r.status == u.status.value)
    && (u.createdAt.None? ==> r.createdAt == p.createdAt) && (u.createdAt.Some? ==> r.createdAt == u.createdAt.value)
    && (u.updatedAt.None? ==> r.updatedAt == p.updatedAt) && (u.updatedAt.Some? ==> r.updatedAt == u.updatedAt.value)
  }

  /** The patch that carries no key. */
  const NoProductChanges := ProductPatch(None, None, None, None, None, None, None, None, None, None, None)

  /** `{ ...p, ...u }` */
  function MergeProduct(p: Product, u: ProductPatch): (r: Product)
    ensures Spread(p, u, r)
    ensures u == NoProductChanges ==> r == p
  {
    Product(
      Override(p.id, u.id), Override(p.name, u.name), Override(p.slug, u.slug),
      Override(p.description, u.description), Override(p.price, u.price),
      Override(p.stock, u.stock), Override(p.categoryId, u.categoryId),
      Override(p.image, u.image), Override(p.status, u.status),
      Override(p.createdAt, u.createdAt), Override(p.updatedAt, u.updatedAt))
  }

  /**
   * `{ ...p, ...u, updatedAt: now }`: the shape both product stores write
   * on update, which is the merge of a patch that also carries the clock.
   */
  function StampedMerge(p: Product, u: ProductPatch, now: int): (r: Product)
    ensures r.updatedAt == now
    ensures Spread(p, u.(updatedAt := Some(now)), r)
  {
    MergeProduct(p, u).(updatedAt := now)
  }

  /** `{ ...c, ...u }`: every key the update carries is taken from it, every other key kept. */
  function MergeCategory(c: Category, u: CategoryPatch): (r: Category)
    ensures u.id.None? ==> r.id == c.id
    ensures u.id.Some? ==> r.id == u.id.value
    ensures u.name.None? ==> r.name == c.name
    ensures u.name.Some? ==> r.name == u.name.value
    ensures u.slug.None? ==> r.slug == c.slug
    ensures u.slug.Some? ==> r.slug == u.slug.value
    ensures u.description.None? ==> r.description == c.description
    ensures u.description.Some? ==> r.description == u.description.value
    ensures u == CategoryPatch(None, None, None, None) ==> r == c
  {
    Category(Override(c.id, u.id), Override(c.name, u.name), Override(c.slug, u.slug),
             Override(c.description, u.description))
  }

  /** Applying the same update twice is applying it once, and a later update wins on every key it carries. */
  lemma MergeLaws(p: Product, u: ProductPatch, v: ProductPatch, c: Category, w: CategoryPatch)
    ensures MergeProduct(MergeProduct(p, u), u) == MergeProduct(p, u)
    ensures Spread(MergeProduct(p, u), v, MergeProduct(MergeProduct(p, u), v))
    ensures MergeCategory(MergeCategory(c, w), w) == MergeCategory(c, w)
  {
  }

  /** A stamped merge keeps every key the update does not carry, takes every key it does, and sets `updatedAt` to the clock whatever the update says. */
  lemma StampedMergeFields(p: Product, u: ProductPatch, now: int)
    ensures var r := StampedMerge(p, u, now);
      && r.updatedAt == now
      && (u.id.None? ==> r.id == p.id) && (u.id.Some? ==> r.id == u.id.value)
      && (u.createdAt.None? ==> r.createdAt == p.createdAt) && (u.createdAt.Some? ==> r.createdAt == u.createdAt.value)
      && (u.name.None? ==> r.name == p.name) && (u.name.Some? ==> r.name == u.name.value)
      && (u.slug.None? ==> r.slug == p.slug) && (u.slug.Some? ==> r.slug == u.slug.value)
      && (u.description.None? ==> r.description == p.description) && (u.description.Some? ==> r.description == u.description.value)
      && (u.price.None? ==> r.price == p.price) && (u.price.Some? ==> r.price == u.price.value)
      && (u.stock.None? ==> r.stock == p.stock) && (u.stock.Some? ==> r.stock == u.stock.value)
      && (u.categoryId.None? ==> r.categoryId == p.categoryId) && (u.categoryId.Some? ==> r.categoryId == u.categoryId.value)
      && (u.image.None? ==> r.image == p.image) && (u.image.Some? ==> r.image == u.image.value)
      && (u.status.None? ==> r.status == p.status) && (u.status.Some? ==> r.status == u.status.value)
  {
  }
}
