/**
 * The dashboard's category server actions (src/app/dashboard/categories/actions.ts),
 * run against the category file store. Deleting forwards to the store
 * without looking at products.
 */
module CategoryActions {
  import opened Wrappers
  import opened Types
  import opened Lists
  import opened Validation
  import opened CategoryStore
  import ProductActions

  const DuplicateSlug := "A category with this slug already exists"

  /** The update `updateCategoryAction` passes: name, slug and description only. */
  function FormPatch(f: CategoryForm): (r: CategoryPatch)
    ensures r.id.None?
    ensures forall c :: MergeCategory(c, r) == Category(c.id, f.name, f.slug, f.description)
  {
    CategoryPatch(None, Some(f.name), Some(f.slug), Some(f.description))
  }

  /** `createCategoryAction` */
  method CreateCategoryAction(store: CategoryFile, form: CategoryForm, newId: string) returns (r: Outcome)
    modifies store
    ensures !CategoryOk(form) ==>
      r == Fail(ProductActions.ValidationFailure(CategoryIssues(form))) && unchanged(store)
    ensures CategoryOk(form) && Find(old(store.Categories()), CategorySlug, form.slug).Some? ==>
      r == Fail(DuplicateSlug) && unchanged(store)
    ensures CategoryOk(form) && Find(old(store.Categories()), CategorySlug, form.slug).None? ==>
      && r == Pass
      && store.file == Parsed(old(store.Categories()) + [Category(newId, form.name, form.slug, form.description)])
      && store.writes == old(store.writes) + 1
  {
    var result := ValidateCategory(form);
    if result.Invalid? {
      return Fail(ProductActions.ValidationFailure(result.issues));
    }
    var existing := store.GetBySlug(form.slug);
    if existing.Some? {
      return Fail(DuplicateSlug);
    }
    var _ := store.Create(Category(newId, form.name, form.slug, form.description));
    r := Pass;
  }

  /** `updateCategoryAction`: a slug held by a different category id is a conflict. */
  method UpdateCategoryAction(store: CategoryFile, categoryId: string, form: CategoryForm) returns (r: Outcome)
    modifies store
    ensures !CategoryOk(form) ==>
      r == Fail(ProductActions.ValidationFailure(CategoryIssues(form))) && unchanged(store)
    ensures var existing := Find(old(store.Categories()), CategorySlug, form.slug);
      CategoryOk(form) && existing.Some? && existing.value.id != categoryId ==>
        r == Fail(DuplicateSlug) && unchanged(store)
    ensures var existing := Find(old(store.Categories()), CategorySlug, form.slug);
      CategoryOk(form) && (existing.None? || existing.value.id == categoryId) ==>
        var before, i := old(store.Categories()), FindIndex(old(store.Categories()), CategoryId, categoryId);
        && r == Pass
        && (i == -1 ==> store.file == old(store.file) && store.writes == old(store.writes))
        && (i != -1 ==> store.file == Parsed(before[i := Category(categoryId, form.name, form.slug, form.description)]))
  {
    var result := ValidateCategory(form);
    if result.Invalid? {
      return Fail(ProductActions.ValidationFailure(result.issues));
    }
    var existing := store.GetBySlug(form.slug);
    if existing.Some? && existing.value.id != categoryId {
      return Fail(DuplicateSlug);
    }
    var _ := store.Update(categoryId, FormPatch(form));
    r := Pass;
  }

  /** `deleteCategoryAction`: forwarded unconditionally; products are not consulted. */
  method DeleteCategoryAction(store: CategoryFile, categoryId: string) returns (r: Outcome)
    modifies store
    ensures r == Pass
    ensures store.Categories() == RemoveWhere(old(store.Categories()), CategoryId, categoryId)
  {
    ghost var before := store.Categories();
    var deleted := store.Delete(categoryId);
    if !deleted {
      assert forall i :: 0 <= i < |before| ==> CategoryId(before[i]) == before[i].id;
      RemoveWhereAbsent(before, CategoryId, categoryId);
    }
    r := Pass;
  }
}
