/**
 * The browser-side store (src/lib/hooks/use-storage.ts). `LocalStorage`
 * holds the three keys the hook uses; a hook object holds the React state
 * (`products` or `categories`, `isLoaded`) and shares the storage. Every
 * save writes the new list to storage and to the state, so after a save
 * the two agree (`Synced`). JSON serialisation is the identity here.
 */
module BrowserStorage {
  import opened Wrappers
  import opened Types
  import opened Lists

  /** The values under 'ecommerce_products', 'ecommerce_categories' and 'ecommerce_initialized'. */
  class LocalStorage {
    var products: Option<seq<Product>>
    var categories: Option<seq<Category>>
    var initialized: Option<string>

    constructor ()
      ensures products == None && categories == None && initialized == None
    {
      products, categories, initialized := None, None, None;
    }
  }

  /** `!isInitialized`: a missing flag or the empty string reads as false. */
  predicate Flagged(flag: Option<string>) {
    flag.Some? && flag.value != ""
  }

  /**
   * `initializeStorage`: outside a browser, or once the flag is set, it does
   * nothing; otherwise it stores the sample data and sets the flag.
   */
  method InitializeStorage(storage: LocalStorage, hasWindow: bool,
                           sampleProducts: seq<Product>, sampleCategories: seq<Category>)
    modifies storage
    ensures !hasWindow || Flagged(old(storage.initialized)) ==>
      storage.products == old(storage.products) && storage.categories == old(storage.categories) &&
      storage.initialized == old(storage.initialized)
    ensures hasWindow && !Flagged(old(storage.initialized)) ==>
      storage.products == Some(sampleProducts) && storage.categories == Some(sampleCategories) &&
      storage.initialized == Some("true")
    ensures hasWindow ==> Flagged(storage.initialized)
  {
    if !hasWindow {
      return;
    }
    if !Flagged(storage.initialized) {
      storage.products := Some(sampleProducts);
      storage.categories := Some(sampleCategories);
      storage.initialized := Some("true");
    }
  }

  /** Initialising a second time changes nothing: the state after two calls is the state after one. */
  method InitializeTwice(storage: LocalStorage, sampleProducts: seq<Product>, sampleCategories: seq<Category>)
    modifies storage
    ensures Flagged(storage.initialized)
    ensures Flagged(old(storage.initialized)) ==>
      storage.products == old(storage.products) && storage.categories == old(storage.categories)
    ensures !Flagged(old(storage.initialized)) ==>
      storage.products == Some(sampleProducts) && storage.categories == Some(sampleCategories)
  {
    InitializeStorage(storage, true, sampleProducts, sampleCategories);
    ghost var products, categories, flag := storage.products, storage.categories, storage.initialized;
    InitializeStorage(storage, true, sampleProducts, sampleCategories);
    assert storage.products == products && storage.categories == categories && storage.initialized == flag;
  }

  /** `useProducts` */
  class ProductsHook {
    const storage: LocalStorage
    var products: seq<Product>
    var isLoaded: bool

    /** The state a save leaves: storage and memory hold the same list. */
    ghost predicate Synced()
      reads this, storage
    {
      storage.products == Some(products)
    }

    constructor (storage: LocalStorage)
      ensures this.storage == storage && products == [] && !isLoaded
    {
      this.storage := storage;
      products := [];
      isLoaded := false;
    }

    /** The mount effect: initialise storage, then load the stored list if there is one. */
    method Load(sampleProducts: seq<Product>, sampleCategories: seq<Category>)
      modifies this, storage
      ensures isLoaded
      ensures Flagged(old(storage.initialized)) ==>
        storage.products == old(storage.products) && storage.categories == old(storage.categories)
      ensures Flagged(storage.initialized)
      ensures !Flagged(old(storage.initialized)) ==>
        storage.products == Some(sampleProducts) && storage.categories == Some(sampleCategories)
      ensures storage.products.Some? ==> products == storage.products.value && Synced()
      ensures storage.products.None? ==> products == old(products)
    {
      InitializeStorage(storage, true, sampleProducts, sampleCategories);
      var stored := storage.products;
      if stored.Some? {
        products := stored.value;
      }
      isLoaded := true;
    }

    /** `saveProducts` */
    method Save(newProducts: seq<Product>)
      modifies this, storage
      ensures products == newProducts && Synced()
      ensures isLoaded == old(isLoaded)
      ensures storage.categories == old(storage.categories) && storage.initialized == old(storage.initialized)
    {
      storage.products := Some(newProducts);
      products := newProducts;
    }

    /** `getProductById`: the first product with that id, or null. */
    method GetById(id: string) returns (r: Option<Product>)
      ensures r == Find(products, ProductId, id)
    {
      r := Find(products, ProductId, id);
    }

    /** `getProductBySlug`: the first product with that slug, or null. */
    method GetBySlug(slug: string) returns (r: Option<Product>)
      ensures r == Find(products, ProductSlug, slug)
    {
      r := Find(products, ProductSlug, slug);
    }

    /** `createProduct`: append and save. */
    method Create(product: Product) returns (r: Product)
      modifies this, storage
      ensures r == product
      ensures products == old(products) + [product] && Synced()
      ensures storage.categories == old(storage.categories)
      ensures isLoaded == old(isLoaded) && storage.initialized == old(storage.initialized)
    {
      Save(products + [product]);
      r := product;
    }

    /**
     * `updateProduct`: merge the update into EVERY product with that id and
     * stamp each with the clock; return the first product carrying the id
     * afterwards, or null.
     */
    method Update(id: string, updates: ProductPatch, now: int) returns (r: Option<Product>)
      modifies this, storage
      ensures |products| == |old(products)| && Synced()
      ensures forall i :: 0 <= i < |products| ==>
        products[i] == if old(products)[i].id == id then StampedMerge(old(products)[i], updates, now) else old(products)[i]
      ensures r == Find(products, ProductId, id)
      ensures updates.id.None? ==>
        var i := FindIndex(old(products), ProductId, id);
        r == if i == -1 then None else Some(StampedMerge(old(products)[i], updates, now))
      ensures storage.categories == old(storage.categories)
      ensures isLoaded == old(isLoaded) && storage.initialized == old(storage.initialized)
    {
      var before := products;
      var stamp := (p: Product) => StampedMerge(p, updates, now);
      var newProducts := MapWhere(before, ProductId, id, stamp);
      if updates.id.None? {
        FindIndexAfterMapWhere(before, ProductId, id, stamp);
      }
      Save(newProducts);
      r := Find(newProducts, ProductId, id);
    }

    /** `deleteProduct`: drop every product with that id, save, and report true whatever happened. */
    method Delete(id: string) returns (ok: bool)
      modifies this, storage
      ensures ok
      ensures products == RemoveWhere(old(products), ProductId, id) && Synced()
      ensures storage.categories == old(storage.categories)
      ensures isLoaded == old(isLoaded) && storage.initialized == old(storage.initialized)
    {
      Save(RemoveWhere(products, ProductId, id));
      ok := true;
    }
  }

  /** `useCategories` */
  class CategoriesHook {
    const storage: LocalStorage
    var categories: seq<Category>
    var isLoaded: bool

    /** The state a save leaves: storage and memory hold the same list. */
    ghost predicate Synced()
      reads this, storage
    {
      storage.categories == Some(categories)
    }

    constructor (storage: LocalStorage)
      ensures this.storage == storage && categories == [] && !isLoaded
    {
      this.storage := storage;
      categories := [];
      isLoaded := false;
    }

    /** The mount effect: initialise storage, then load the stored list if there is one. */
    method Load(sampleProducts: seq<Product>, sampleCategories: seq<Category>)
      modifies this, storage
      ensures isLoaded
      ensures Flagged(old(storage.initialized)) ==>
        storage.products == old(storage.products) && storage.categories == old(storage.categories)
      ensures Flagged(storage.initialized)
      ensures !Flagged(old(storage.initialized)) ==>
        storage.products == Some(sampleProducts) && storage.categories == Some(sampleCategories)
      ensures storage.categories.Some? ==> categories == storage.categories.value && Synced()
      ensures storage.categories.None? ==> categories == old(categories)
    {
      InitializeStorage(storage, true, sampleProducts, sampleCategories);
      var stored := storage.categories;
      if stored.Some? {
        categories := stored.value;
      }
      isLoaded := true;
    }

    /** `saveCategories` */
    method Save(newCategories: seq<Category>)
      modifies this, storage
      ensures categories == newCategories && Synced()
      ensures isLoaded == old(isLoaded)
      ensures storage.products == old(storage.products) && storage.initialized == old(storage.initialized)
    {
      storage.categories := Some(newCategories);
      categories := newCategories;
    }

    /** `getCategoryById`: the first category with that id, or null. */
    method GetById(id: string) returns (r: Option<Category>)
      ensures r == Find(categories, CategoryId, id)
    {
      r := Find(categories, CategoryId, id);
    }

    /** `getCategoryBySlug`: the first category with that slug, or null. */
    method GetBySlug(slug: string) returns (r: Option<Category>)
      ensures r == Find(categories, CategorySlug, slug)
    {
      r := Find(categories, CategorySlug, slug);
    }

    /** `createCategory`: append and save. */
    method Create(category: Category) returns (r: Category)
      modifies this, storage
      ensures r == category
      ensures categories == old(categories) + [category] && Synced()
      ensures storage.products == old(storage.products)
      ensures isLoaded == old(isLoaded) && storage.initialized == old(storage.initialized)
    {
      Save(categories + [category]);
      r := category;
    }

    /**
     * `updateCategory`: merge the update into every category with that id;
     * return the first category carrying the id afterwards, or null.
     */
    method Update(id: string, updates: CategoryPatch) returns (r: Option<Category>)
      modifies this, storage
      ensures |categories| == |old(categories)| && Synced()
      ensures forall i :: 0 <= i < |categories| ==>
        categories[i] == if old(categories)[i].id == id then MergeCategory(old(categories)[i], updates) else old(categories)[i]
      ensures r == Find(categories, CategoryId, id)
      ensures updates.id.None? ==>
        var i := FindIndex(old(categories), CategoryId, id);
        r == if i == -1 then None else Some(MergeCategory(old(categories)[i], updates))
      ensures storage.products == old(storage.products)
      ensures isLoaded == old(isLoaded) && storage.initialized == old(storage.initialized)
    {
      var before := categories;
      var merge := (c: Category) => MergeCategory(c, updates);
      var newCategories := MapWhere(before, CategoryId, id, merge);
      if updates.id.None? {
        FindIndexAfterMapWhere(before, CategoryId, id, merge);
      }
      Save(newCategories);
      r := Find(newCategories, CategoryId, id);
    }

    /** `deleteCategory`: drop every category with that id, save, and report true whatever happened. */
    method Delete(id: string) returns (ok: bool)
      modifies this, storage
      ensures ok
      ensures categories == RemoveWhere(old(categories), CategoryId, id) && Synced()
      ensures storage.products == old(storage.products)
      ensures isLoaded == old(isLoaded) && storage.initialized == old(storage.initialized)
    {
      Save(RemoveWhere(categories, CategoryId, id));
      ok := true;
    }
  }
}
