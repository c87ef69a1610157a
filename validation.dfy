/**
 * The zod schemas of src/lib/validation.ts as predicates and as the list
 * of issue messages `safeParse` reports. zod checks every key of the
 * object in declaration order and every non-aborting check of a key, so
 * all violated rules are reported together. The uuid and URL formats are
 * supplied by the caller as predicates.
 */
module Validation {
  import opened Wrappers
  import opened Types

  /** The product form as the actions read it; `None` is the NaN that `parseFloat`/`parseInt` give for non-numbers. */
  datatype ProductForm = ProductForm(
    name: string,
    slug: string,
    description: string,
    price: Option<real>,
    stock: Option<real>,
    categoryId: string,
    image: string,
    status: string)

  datatype CategoryForm = CategoryForm(name: string, slug: string, description: string)

  /** zod's `uuid()` and `url()` string formats. */
  datatype FormatChecks = FormatChecks(isUuid: string -> bool, isUrl: string -> bool)

  /** A product form that passed the schema, with its typed values. */
  datatype ProductFields = ProductFields(
    name: string,
    slug: string,
    description: string,
    price: real,
    stock: int,
    categoryId: string,
    image: string,
    status: Status)

  datatype Parsed<T> = Valid(data: T) | Invalid(issues: seq<string>)

  // The rules, one per field.

  predicate NameOk(name: string) { 1 <= |name| <= 255 }

  predicate SlugChar(c: char) { 'a' <= c <= 'z' || '0' <= c <= '9' || c == '-' }

  /** `/^[a-z0-9-]+$/` */
  predicate SlugOk(slug: string) {
    |slug| >= 1 && forall i :: 0 <= i < |slug| ==> SlugChar(slug[i])
  }

  predicate DescriptionOk(description: string) { |description| >= 1 }

  predicate PriceOk(price: Option<real>) { price.Some? && price.value >= 0.0 }

  predicate IsInteger(x: real) { x.Floor as real == x }

  predicate StockOk(stock: Option<real>) { stock.Some? && IsInteger(stock.value) && stock.value >= 0.0 }

  /** `z.enum(['active', 'inactive', 'draft'])` */
  function ParseStatus(s: string): Option<Status> {
    if s == "active" then Some(Active)
    else if s == "inactive" then Some(Inactive)
    else if s == "draft" then Some(Draft)
    else None
  }

  predicate ProductOk(f: ProductForm, checks: FormatChecks) {
    && NameOk(f.name) && SlugOk(f.slug) && DescriptionOk(f.description)
    && PriceOk(f.price) && StockOk(f.stock)
    && checks.isUuid(f.categoryId) && checks.isUrl(f.image)
    && ParseStatus(f.status).Some?
  }

  predicate CategoryOk(f: CategoryForm) {
    NameOk(f.name) && SlugOk(f.slug) && DescriptionOk(f.description)
  }

  // The messages, in the order zod reports them.

  const TooLong := "Name is too long"
  const SlugRequired := "Slug is required"
  const SlugPattern := "Slug can only contain lowercase letters, numbers, and hyphens"
  const DescriptionRequired := "Description is required"
  const NotANumber := "Expected number, received nan"
  const NegativePrice := "Price must be 0 or greater"
  const NotAnInteger := "Expected integer, received float"
  const NegativeStock := "Stock must be 0 or greater"
  const BadCategory := "Please select a category"
  const BadImage := "Please enter a valid URL"

  function StatusMessage(s: string): string {
    "Invalid enum value. Expected 'active' | 'inactive' | 'draft', received '" + s + "'"
  }

  function NameIssues(name: string, required: string): seq<string> {
    (if |name| < 1 then [required] else []) + (if |name| > 255 then [TooLong] else [])
  }

  /** An empty slug fails both `min(1)` and the pattern. */
  function SlugIssues(slug: string): seq<string> {
    (if |slug| < 1 then [SlugRequired] else []) + (if !SlugOk(slug) then [SlugPattern] else [])
  }

  function DescriptionIssues(description: string): seq<string> {
    if |description| < 1 then [DescriptionRequired] else []
  }

  /** A NaN fails the type check, which stops the field's other checks. */
  function PriceIssues(price: Option<real>): seq<string> {
    match price
    case None => [NotANumber]
    case Some(v) => if v < 0.0 then [NegativePrice] else []
  }

  function StockIssues(stock: Option<real>): seq<string> {
    match stock
    case None => [NotANumber]
    case Some(v) => (if !IsInteger(v) then [NotAnInteger] else []) + (if v < 0.0 then [NegativeStock] else [])
  }

  /** The issues `productSchema` reports, in order: none exactly when every rule holds. */
  function ProductIssues(f: ProductForm, checks: FormatChecks): (r: seq<string>)
    ensures r == [] <==> ProductOk(f, checks)
  {
    NameIssues(f.name, "Product name is required")
    + SlugIssues(f.slug)
    + DescriptionIssues(f.description)
    + PriceIssues(f.price)
    + StockIssues(f.stock)
    + (if !checks.isUuid(f.categoryId) then [BadCategory] else [])
    + (if !checks.isUrl(f.image) then [BadImage] else [])
    + (if ParseStatus(f.status).None? then [StatusMessage(f.status)] else [])
  }

  /** The issues `categorySchema` reports, in order: none exactly when every rule holds. */
  function CategoryIssues(f: CategoryForm): (r: seq<string>)
    ensures r == [] <==> CategoryOk(f)
  {
    NameIssues(f.name, "Category name is required") + SlugIssues(f.slug) + DescriptionIssues(f.description)
  }

  /** `productSchema.safeParse`: the typed form when every rule holds, otherwise every issue. */
  function ValidateProduct(f: ProductForm, checks: FormatChecks): (r: Parsed<ProductFields>)
    ensures r.Valid? <==> ProductOk(f, checks)
    ensures r.Invalid? ==> r.issues == ProductIssues(f, checks) && r.issues != []
    ensures r.Valid? ==>
      && r.data.name == f.name && r.data.slug == f.slug && r.data.description == f.description
      && Some(r.data.price) == f.price && Some(r.data.stock as real) == f.stock
      && r.data.categoryId == f.categoryId && r.data.image == f.image
      && Some(r.data.status) == ParseStatus(f.status)
  {
    var issues := ProductIssues(f, checks);
    if issues == [] then
      Valid(ProductFields(f.name, f.slug, f.description, f.price.value, f.stock.value.Floor,
                        f.categoryId, f.image, ParseStatus(f.status).value))
    else Invalid(issues)
  }

  /** `categorySchema.safeParse` */
  function ValidateCategory(f: CategoryForm): (r: Parsed<CategoryForm>)
    ensures r.Valid? <==> CategoryOk(f)
    ensures r.Valid? ==> r.data == f
    ensures r.Invalid? ==> r.issues == CategoryIssues(f) && r.issues != []
  {
    var issues := CategoryIssues(f);
    if issues == [] then Valid(f) else Invalid(issues)
  }

  /** Every broken product field is reported by its own message, whatever the other fields hold. */
  lemma ProductIssuesNameEachField(f: ProductForm, checks: FormatChecks)
    ensures !NameOk(f.name) ==> "Product name is required" in ProductIssues(f, checks) || TooLong in ProductIssues(f, checks)
    ensures !SlugOk(f.slug) ==> SlugPattern in ProductIssues(f, checks)
    ensures !DescriptionOk(f.description) ==> DescriptionRequired in ProductIssues(f, checks)
    ensures !PriceOk(f.price) ==> NotANumber in ProductIssues(f, checks) || NegativePrice in ProductIssues(f, checks)
    ensures !StockOk(f.stock) ==>
      NotANumber in ProductIssues(f, checks) || NotAnInteger in ProductIssues(f, checks) || NegativeStock in ProductIssues(f, checks)
    ensures !checks.isUuid(f.categoryId) ==> BadCategory in ProductIssues(f, checks)
    ensures !checks.isUrl(f.image) ==> BadImage in ProductIssues(f, checks)
    ensures ParseStatus(f.status).None? ==> StatusMessage(f.status) in ProductIssues(f, checks)
  {
  }

  /** The slug rule admits only lower-case letters, digits and hyphens: upper case, spaces and underscores are refused. */
  lemma SlugRefuses(slug: string)
    ensures SlugOk(slug) <==> slug != [] && forall i :: 0 <= i < |slug| ==> SlugChar(slug[i])
    ensures SlugOk(slug) ==> forall i :: 0 <= i < |slug| ==> slug[i] != ' ' && slug[i] != '_' && !('A' <= slug[i] <= 'Z')
  {
  }

  /** The status rule admits exactly the three statuses, each naming its own. */
  lemma StatusRule(s: string)
    ensures ParseStatus(s).Some? <==> s == "active" || s == "inactive" || s == "draft"
    ensures ParseStatus("active") == Some(Active) && ParseStatus("inactive") == Some(Inactive)
    ensures ParseStatus("draft") == Some(Draft)
  {
  }

  /** The category schema applies exactly the product schema's rules for name, slug and description. */
  lemma CategoryRulesAreProductRules(c: CategoryForm, f: ProductForm, checks: FormatChecks)
    requires c.name == f.name && c.slug == f.slug && c.description == f.description
    ensures ValidateCategory(c).Valid? <==> NameOk(f.name) && SlugOk(f.slug) && DescriptionOk(f.description)
    ensures ValidateProduct(f, checks).Valid? ==> ValidateCategory(c).Valid?
  {
  }
}
