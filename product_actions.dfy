/**
 * The dashboard's product server actions (src/app/dashboard/products/actions.ts):
 * validate, check the slug, build the record, call the store. The id
 * generator and the two clock reads are parameters; a thrown `Error` is a
 * `Fail` carrying its message. Cache revalidation and the redirect are
 * not modelled.
 */
module ProductActions {
  import opened Wrappers
  import opened Types
  import opened Lists
  import opened Text
  import opened Validation
  import opened ProductStore

  const DuplicateSlug := "A product with this slug already exists"

  /** The message thrown on a failed validation: every issue, joined with ", ". */
  function ValidationFailure(issues: seq<string>): (m: string)
    ensures StartsWith(m, "Validation failed: ")
    ensures m[|"Validation failed: "|..] == Join(issues, ", ")
  {
    var prefix := "Validation failed: ";
    assert (prefix + Join(issues, ", "))[..|prefix|] == prefix;
    prefix + Join(issues, ", ")
  }

  /** The form fields a product record carries. */
  function FieldsOf(p: Product): ProductFields {
    ProductFields(p.name, p.slug, p.description, p.price, p.stock, p.categoryId, p.image, p.status)
  }

  /** The record `createProductAction` stores: the validated fields, the new id and the two clock readings. */
  function NewProduct(id: string, data: ProductFields, createdAt: int, updatedAt: int): (r: Product)
    ensures FieldsOf(r) == data
    ensures r.id == id && r.createdAt == createdAt && r.updatedAt == updatedAt
  {
    Product(id, data.name, data.slug, data.description, data.price, data.stock,
            data.categoryId, data.image, data.status, createdAt, updatedAt)
  }

  /** The update `updateProductAction` passes: the form fields, never `id`, `createdAt` or `updatedAt`. */
  function FormPatch(data: ProductFields): (r: ProductPatch)
    ensures r.id.None? && r.createdAt.None? && r.updatedAt.None?
    ensures forall p :: MergeProduct(p, r) == NewProduct(p.id, data, p.createdAt, p.updatedAt)
  {
    ProductPatch(None, Some(data.name), Some(data.slug), Some(data.description), Some(data.price),
                 Some(data.stock), Some(data.categoryId), Some(data.image), Some(data.status), None, None)
  }

  /** `createProductAction` */
  method CreateProductAction(store: ProductFile, form: ProductForm, checks: FormatChecks,
                             newId: string, createdAt: int, updatedAt: int) returns (r: Outcome)
    modifies store
    ensures var v := ValidateProduct(form, checks);
      v.Invalid? ==> r == Fail(ValidationFailure(v.issues)) && unchanged(store)
    ensures ProductOk(form, checks) && Find(old(store.Products()), ProductSlug, form.slug).Some? ==>
      r == Fail(DuplicateSlug) && unchanged(store)
    ensures var v := ValidateProduct(form, checks);
      v.Valid? && Find(old(store.Products()), ProductSlug, form.slug).None? ==>
        && r == Pass
        && store.file == Parsed(old(store.Products()) + [NewProduct(newId, v.data, createdAt, updatedAt)])
        && store.writes == old(store.writes) + 1
  {
    var result := ValidateProduct(form, checks);
    if result.Invalid? {
      return Fail(ValidationFailure(result.issues));
    }
    var existing := store.GetBySlug(form.slug);
    if existing.Some? {
      return Fail(DuplicateSlug);
    }
    var product := NewProduct(newId, result.data, createdAt, updatedAt);
    var _ := store.Create(product);
    r := Pass;
  }

  /**
   * `updateProductAction`: a slug held by a product with a different id
   * is a conflict; the store then merges the form into the first product
   * with the id (an unknown id changes nothing and is not an error).
   */
  method UpdateProductAction(store: ProductFile, productId: string, form: ProductForm,
                             checks: FormatChecks, now: int) returns (r: Outcome)
    modifies store
    ensures var v := ValidateProduct(form, checks);
      v.Invalid? ==> r == Fail(ValidationFailure(v.issues)) && unchanged(store)
    ensures var existing := Find(old(store.Products()), ProductSlug, form.slug);
      ProductOk(form, checks) && existing.Some? && existing.value.id != productId ==>
        r == Fail(DuplicateSlug) && unchanged(store)
    ensures var v, existing := ValidateProduct(form, checks), Find(old(store.Products()), ProductSlug, form.slug);
      v.Valid? && (existing.None? || existing.value.id == productId) ==>
        var before, i := old(store.Products()), FindIndex(old(store.Products()), ProductId, productId);
        && r == Pass
        && (i == -1 ==> store.file == old(store.file) && store.writes == old(store.writes))
        && (i != -1 ==> store.file == Parsed(before[i := StampedMerge(before[i], FormPatch(v.data), now)]))
        && (i != -1 ==> store.Products()[i].id == before[i].id && store.Products()[i].createdAt == before[i].createdAt)
  {
    var result := ValidateProduct(form, checks);
    if result.Invalid? {
      return Fail(ValidationFailure(result.issues));
    }
    var existing := store.GetBySlug(form.slug);
    if existing.Some? && existing.value.id != productId {
      return Fail(DuplicateSlug);
    }
    var _ := store.Update(productId, FormPatch(result.data), now);
    r := Pass;
  }

  /** `deleteProductAction`: forwarded to the store unconditionally; a missing id is not an error. */
  method DeleteProductAction(store: ProductFile, productId: string) returns (r: Outcome)
    modifies store
    ensures r == Pass
    ensures store.Products() == RemoveWhere(old(store.Products()), ProductId, productId)
    ensures (forall i :: 0 <= i < |old(store.Products())| ==> old(store.Products())[i].id != productId) ==>
      store.file == old(store.file) && store.writes == old(store.writes)
  {
    ghost var before := store.Products();
    var deleted := store.Delete(productId);
    if !deleted {
      assert forall i :: 0 <= i < |before| ==> ProductId(before[i]) == before[i].id;
      RemoveWhereAbsent(before, ProductId, productId);
    }
    r := Pass;
  }
}
