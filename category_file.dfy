/**
 * The JSON-file category store (src/lib/data/categories.ts): the same
 * read-change-write cycle as the product store, over categories.json.
 * It never reads or writes the product file, so deleting a category leaves
 * every product, and every product's `categoryId`, as it was.
 */
module CategoryStore {
  import opened Wrappers
  import opened Types
  import opened Lists

  /** The contents of categories.json as `readCategoriesFile` sees them. */
  datatype Document = Unreadable | Parsed(categories: seq<Category>)

  class CategoryFile {
    var file: Document
    ghost var writes: nat

    constructor (initial: Document)
      ensures file == initial && writes == 0
    {
      file := initial;
      writes := 0;
    }

    /** The list `readCategoriesFile` returns: a failed read or parse yields the empty list. */
    function Categories(): seq<Category>
      reads this
    {
      if file.Parsed? then file.categories else []
    }

    /** `writeCategoriesFile` */
    method Write(categories: seq<Category>)
      modifies this
      ensures file == Parsed(categories) && writes == old(writes) + 1
    {
      file := Parsed(categories);
      writes := writes + 1;
    }

    /** `getAllCategories` */
    method GetAll() returns (r: seq<Category>)
      ensures r == Categories()
      ensures file.Unreadable? ==> r == []
      ensures file.Parsed? ==> r == file.categories
    {
      r := Categories();
    }

    /** `getCategoryById`: the first category with that id, or null. */
    method GetById(id: string) returns (r: Option<Category>)
      ensures r == Find(Categories(), CategoryId, id)
    {
      var categories := GetAll();
      r := Find(categories, CategoryId, id);
    }

    /** `getCategoryBySlug`: the first category with that slug, or null. */
    method GetBySlug(slug: string) returns (r: Option<Category>)
      ensures r == Find(Categories(), CategorySlug, slug)
    {
      var categories := GetAll();
      r := Find(categories, CategorySlug, slug);
    }

    /** `createCategory`: push at the end, without any uniqueness check, and write. */
    method Create(category: Category) returns (r: Category)
      modifies this
      ensures r == category
      ensures file == Parsed(old(Categories()) + [category])
      ensures Categories()[..|old(Categories())|] == old(Categories())
      ensures writes == old(writes) + 1
    {
      var categories := GetAll();
      categories := categories + [category];
      Write(categories);
      r := category;
    }

    /**
     * `updateCategory`: merge the update into the FIRST category with that
     * id (no timestamp); an unknown id returns null and leaves the file
     * unwritten.
     */
    method Update(id: string, updates: CategoryPatch) returns (r: Option<Category>)
      modifies this
      ensures var before, i := old(Categories()), FindIndex(old(Categories()), CategoryId, id);
        if i == -1 then
          r == None && file == old(file) && writes == old(writes)
        else
          && r == Some(MergeCategory(before[i], updates))
          && file == Parsed(before[i := r.value])
          && writes == old(writes) + 1
      ensures |Categories()| == |old(Categories())|
      ensures forall j :: 0 <= j < |Categories()| && Categories()[j] != old(Categories())[j] ==>
                j == FindIndex(old(Categories()), CategoryId, id)
    {
      var categories := GetAll();
      var index := FindIndex(categories, CategoryId, id);
      if index == -1 {
        return None;
      }
      categories := categories[index := MergeCategory(categories[index], updates)];
      Write(categories);
      r := Some(categories[index]);
    }

    /**
     * `deleteCategory`: drop every category with that id; report whether
     * the list shrank, and write the file only when it did.
     */
    method Delete(id: string) returns (deleted: bool)
      modifies this
      ensures deleted <==> exists i :: 0 <= i < |old(Categories())| && old(Categories())[i].id == id
      ensures deleted ==> file == Parsed(RemoveWhere(old(Categories()), CategoryId, id)) && writes == old(writes) + 1
      ensures !deleted ==> file == old(file) && writes == old(writes)
    {
      var categories := GetAll();
      var initialLength := |categories|;
      RemoveWhereShrinks(categories, CategoryId, id);
      assert forall i :: 0 <= i < |categories| ==> CategoryId(categories[i]) == categories[i].id;
      categories := RemoveWhere(categories, CategoryId, id);
      if |categories| == initialLength {
        return false;
      }
      Write(categories);
      deleted := true;
    }

    /** `seedCategories`: replace the whole list. */
    method Seed(categories: seq<Category>)
      modifies this
      ensures file == Parsed(categories) && Categories() == categories
      ensures writes == old(writes) + 1
    {
      Write(categories);
    }
  }
}
