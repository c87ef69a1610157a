/**
 * The JSON-file product store (src/lib/data/products.ts). Every operation
 * reads the whole document, changes the list and writes it back. The file
 * is a field: either a parsed document or something that cannot be read or
 * parsed; the ghost counter `writes` counts the times the file is written.
 */
module ProductStore {
  import opened Wrappers
  import opened Types
  import opened Lists

  /** The contents of products.json as `readProductsFile` sees them. */
  datatype Document = Unreadable | Parsed(products: seq<Product>)

  class ProductFile {
    var file: Document
    ghost var writes: nat

    constructor (initial: Document)
      ensures file == initial && writes == 0
    {
      file := initial;
      writes := 0;
    }

    /** The list `readProductsFile` returns: a failed read or parse yields the empty list. */
    function Products(): seq<Product>
      reads this
    {
      if file.Parsed? then file.products else []
    }

    /** `writeProductsFile` */
    method Write(products: seq<Product>)
      modifies this
      ensures file == Parsed(products) && writes == old(writes) + 1
    {
      file := Parsed(products);
      writes := writes + 1;
    }

    /** `getAllProducts` */
    method GetAll() returns (r: seq<Product>)
      ensures r == Products()
      ensures file.Unreadable? ==> r == []
      ensures file.Parsed? ==> r == file.products
    {
      r := Products();
    }

    /** `getProductById`: the first product with that id, or null. */
    method GetById(id: string) returns (r: Option<Product>)
      ensures r == Find(Products(), ProductId, id)
    {
      var products := GetAll();
      r := Find(products, ProductId, id);
    }

    /** `getProductBySlug`: the first product with that slug, or null. */
    method GetBySlug(slug: string) returns (r: Option<Product>)
      ensures r == Find(Products(), ProductSlug, slug)
    {
      var products := GetAll();
      r := Find(products, ProductSlug, slug);
    }

    /** `createProduct`: push at the end, without any uniqueness check, and write. */
    method Create(product: Product) returns (r: Product)
      modifies this
      ensures r == product
      ensures file == Parsed(old(Products()) + [product])
      ensures Products()[..|old(Products())|] == old(Products())
      ensures writes == old(writes) + 1
    {
      var products := GetAll();
      products := products + [product];
      Write(products);
      r := product;
    }

    /**
     * `updateProduct`: merge the update into the FIRST product with that id
     * and stamp `updatedAt` with the clock; an unknown id returns null and
     * leaves the file unwritten.
     */
    method Update(id: string, updates: ProductPatch, now: int) returns (r: Option<Product>)
      modifies this
      ensures var before, i := old(Products()), FindIndex(old(Products()), ProductId, id);
        if i == -1 then
          r == None && file == old(file) && writes == old(writes)
        else
          && r == Some(StampedMerge(before[i], updates, now))
          && file == Parsed(before[i := r.value])
          && writes == old(writes) + 1
      ensures |Products()| == |old(Products())|
      ensures forall j :: 0 <= j < |Products()| && Products()[j] != old(Products())[j] ==>
                j == FindIndex(old(Products()), ProductId, id)
    {
      var products := GetAll();
      var index := FindIndex(products, ProductId, id);
      if index == -1 {
        return None;
      }
      products := products[index := StampedMerge(products[index], updates, now)];
      Write(products);
      r := Some(products[index]);
    }

    /**
     * `deleteProduct`: drop every product with that id; report whether the
     * list shrank, and write the file only when it did.
     */
    method Delete(id: string) returns (deleted: bool)
      modifies this
      ensures deleted <==> exists i :: 0 <= i < |old(Products())| && old(Products())[i].id == id
      ensures deleted ==> file == Parsed(RemoveWhere(old(Products()), ProductId, id)) && writes == old(writes) + 1
      ensures !deleted ==> file == old(file) && writes == old(writes)
    {
      var products := GetAll();
      var initialLength := |products|;
      RemoveWhereShrinks(products, ProductId, id);
      assert forall i :: 0 <= i < |products| ==> ProductId(products[i]) == products[i].id;
      products := RemoveWhere(products, ProductId, id);
      if |products| == initialLength {
        return false;
      }
      Write(products);
      deleted := true;
    }

    /** `seedProducts`: replace the whole list. */
    method Seed(products: seq<Product>)
      modifies this
      ensures file == Parsed(products) && Products() == products
      ensures writes == old(writes) + 1
    {
      Write(products);
    }
  }
}
