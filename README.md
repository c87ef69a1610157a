# Storefront core in Dafny

This project models the core of a small e-commerce storefront written in
TypeScript (Next.js). The core covers:

- the JSON-file product and category stores (`src/lib/data/products.ts`,
  `src/lib/data/categories.ts`);
- the browser `localStorage` hooks (`src/lib/hooks/use-storage.ts`);
- the zod form schemas (`src/lib/validation.ts`);
- the dashboard's server actions for products and categories;
- the storefront's filter-and-sort pipeline and the query-string update
  rule;
- the dashboard figures, the category-name lookup and the status badge;
- the dashboard access gate and the session callbacks (`src/lib/auth.config.ts`);
- the two database scripts (`src/lib/db/seed.ts`, `src/lib/db/setup.ts`).

Modules, one per file:

| module | file | what it models |
|---|---|---|
| `Wrappers` | wrappers.dfy | `Option`, and `Outcome` (success, or a thrown `Error` with its message) |
| `Lists` | lists.dfy | `findIndex`, `find`, `filter` on a key, `map` on matching entries |
| `Text` | text.dfy | `includes`, `indexOf`, `split`, `join`, `trim`, `startsWith` |
| `Sorting` | sorting.dfy | the stable `Array.prototype.sort` for a comparator `key(a) - key(b)`: a specification `SortBy` and an in-place insertion sort proved equal to it |
| `Types` | types.dfy | `Product`, `Category`, `Partial<…>` patches and object spread |
| `ProductStore`, `CategoryStore` | product_file.dfy, category_file.dfy | the file stores, as classes whose field is the file |
| `BrowserStorage` | local_storage.dfy | `localStorage` and the two hooks, as classes |
| `Validation` | validation.dfy | the zod schemas and the issue messages `safeParse` reports |
| `ProductActions`, `CategoryActions` | product_actions.dfy, category_actions.dfy | the server actions over the stores |
| `SearchParams` | search_params.dfy | `URLSearchParams` and `updateFilter` |
| `Storefront` | storefront.dfy | the home page's filter-and-sort effect |
| `Dashboard` | dashboard.dfy | the dashboard figures, category names and badges |
| `Auth` | auth.dfy | the `authorized`, `jwt` and `session` callbacks |
| `DbScripts`, `SeedScript`, `SetupScript` | db_scripts.dfy, seed_script.dfy, setup_script.dfy | the statement splitter, the statement loops, the password, the settings-file parser and the two scripts' flows |

Conventions:

- A file read that fails or does not parse is the `Unreadable` document.
  It reads as the empty list.
- Each store carries a ghost counter of file writes, so the contracts can
  say when the file is written.
- A thrown `Error` is `Fail(message)`.
- Clocks, the id generator, `Math.random`, the database, the uuid/URL
  formats, `localeCompare` and the fuzzy search are parameters.
- Prices are `real`, stock is `int`, and timestamps are `int` milliseconds.

## Model

| member | source | states |
|---|---|---|
| Lists.FindIndex | src/lib/data/products.ts:59 | the result is -1 exactly when no entry has the key; otherwise it is the first index with the key |
| Lists.Find | src/lib/data/products.ts:40-43 | `None` exactly when no entry has the key; otherwise the entry at the first index with the key |
| Lists.KeepWhere | src/app/home-content.tsx:23 | no longer than the input; every kept entry is from the input and has the key; every input entry with the key is kept |
| Lists.RemoveWhere | src/lib/data/products.ts:76 | no longer than the input; no kept entry has the key; every input entry without the key is kept |
| Lists.MapWhere | src/lib/hooks/use-storage.ts:57-61 | same length; entries with the key are rewritten by the map and all others are kept |
| Lists.KeepRemovePartition | src/app/dashboard/page.tsx:15 | the kept and the removed entries together are the input (multiset and length) |
| Lists.RemoveWhereShrinks | src/lib/data/products.ts:75-78 | the filtered list is shorter exactly when some entry has the id, which is how `deleteProduct` detects a deletion |
| Lists.RemoveWhereAbsent | src/lib/data/products.ts:76-78 | removing an id no entry carries leaves the list as it was |
| Lists.FindIndexAfterMapWhere | src/lib/hooks/use-storage.ts:57-63 | rewriting the matching entries while keeping their id leaves the first match where it was |
| Lists.FindAppend | src/components/store/product-filters.tsx:34 | the first match in a concatenation is in the left part if it has one, else in the right part |
| Lists.FindAfterRemoveOther | src/components/store/product-filters.tsx:29 | deleting one name does not change the first entry of another name |
| Types.MergeProduct | src/lib/data/products.ts:63-65 | every key the update carries is taken from it and every other key is kept; an update that carries no key changes nothing |
| Types.StampedMerge | src/lib/data/products.ts:63-67 | `updatedAt` is the clock whatever the update says; every other key as in the spread of the update |
| Types.MergeCategory | src/lib/data/categories.ts:63-66 | each of id, name, slug and description is taken from the update when it carries it and kept otherwise; an empty update changes nothing |
| Types.MergeLaws | src/lib/data/products.ts:63-65 | applying the same update twice is applying it once, and a later update wins on every key it carries |
| Types.StampedMergeFields | src/lib/data/products.ts:63-67 | all eleven fields: each is taken from the update when present and from the stored record otherwise, `createdAt` included; `updatedAt` is the clock |
| Sorting.SortBySorted | src/app/home-content.tsx:44-62 | the sorted list is ordered by the key |
| Sorting.SortByPermutes | src/app/home-content.tsx:44-62 | sorting is a permutation: same multiset and length |
| Sorting.SortByStable | src/app/home-content.tsx:46-60 | entries with equal keys keep their relative order, as the stable sort of ECMA-262 (10th edition, section 22.1.3.27) requires |
| Sorting.SortBySortedIsIdentity | src/app/home-content.tsx:46-60 | an already-ordered list is left as it is |
| Sorting.InsertAt | src/app/home-content.tsx:46 | moves `a[i]` into the sorted prefix `a[..i]` in place, as `Insert` specifies, and leaves the rest of the array alone |
| Sorting.SortInPlace | src/app/home-content.tsx:46 | sorting the array in place leaves it equal to `SortBy` of its old contents |
| Text.Contains | src/lib/db/seed.ts:48 | true exactly when the needle occurs at some index |
| Text.IndexOf | src/lib/db/seed.ts:19 | -1 exactly when the separator does not occur; otherwise the first index where it occurs |
| Text.Split | src/lib/db/seed.ts:19 | at least one piece |
| Text.SplitPiecesFree | src/lib/db/setup.ts:21 | no piece contains the separator |
| Text.JoinSplit | src/lib/db/seed.ts:19-21 | joining the pieces with the separator gives back the text |
| Text.SplitFirst | src/lib/db/seed.ts:19-21 | the first piece is the text before the first separator, and the remaining pieces join back to the text after it |
| Text.Trim | src/lib/db/seed.ts:21 | no longer than the input; the result neither starts nor ends with ECMAScript white space |
| Text.TrimIsInfix | src/lib/db/setup.ts:22 | the trimmed text is an infix of the input, and only white space lies outside it |
| Text.TrimIdempotent | src/lib/db/setup.ts:22 | trimming twice is trimming once |
| Text.InfixKeepsAbsence | src/lib/db/setup.ts:21-22 | an infix of a text without the separator has no separator |
| ProductStore.ProductFile.GetAll | src/lib/data/products.ts:20-28 | the parsed list, or the empty list for an unreadable file |
| ProductStore.ProductFile.GetById | src/lib/data/products.ts:40-43 | the first product with the id, or none |
| ProductStore.ProductFile.GetBySlug | src/lib/data/products.ts:45-48 | the first product with the slug, or none |
| ProductStore.ProductFile.Create | src/lib/data/products.ts:50-55 | appends the product without a uniqueness check and writes once; earlier products are kept |
| ProductStore.ProductFile.Update | src/lib/data/products.ts:57-71 | an unknown id returns none with no write; otherwise only the first product with the id changes, to the stamped merge, and it is returned |
| ProductStore.ProductFile.Delete | src/lib/data/products.ts:73-82 | reports true exactly when some product had the id; then every such product is removed and the file written; otherwise nothing is written |
| ProductStore.ProductFile.Seed | src/lib/data/products.ts:84-86 | replaces the whole list |
| CategoryStore.CategoryFile.GetAll | src/lib/data/categories.ts:20-38 | the parsed list, or the empty list for an unreadable file |
| CategoryStore.CategoryFile.GetById | src/lib/data/categories.ts:40-43 | the first category with the id, or none |
| CategoryStore.CategoryFile.GetBySlug | src/lib/data/categories.ts:45-48 | the first category with the slug, or none |
| CategoryStore.CategoryFile.Create | src/lib/data/categories.ts:50-55 | appends without a uniqueness check and writes once |
| CategoryStore.CategoryFile.Update | src/lib/data/categories.ts:57-70 | an unknown id returns none with no write; otherwise only the first category with the id changes, to the merge with no timestamp |
| CategoryStore.CategoryFile.Delete | src/lib/data/categories.ts:72-81 | true exactly when some category had the id; writes only then |
| CategoryStore.CategoryFile.Seed | src/lib/data/categories.ts:83-85 | replaces the whole list |
| BrowserStorage.InitializeStorage | src/lib/hooks/use-storage.ts:12-21 | with no window, or with the flag already set, nothing changes; otherwise the samples are stored and the flag is set |
| BrowserStorage.InitializeTwice | src/lib/hooks/use-storage.ts:15-20 | a second initialisation changes nothing |
| BrowserStorage.ProductsHook.Load | src/lib/hooks/use-storage.ts:28-35 | initialises storage (afterwards the flag is set; on a first load both sample lists are stored; otherwise both stored lists are kept), then loads the stored list when there is one, and marks the hook loaded |
| BrowserStorage.ProductsHook.Save | src/lib/hooks/use-storage.ts:37-40 | storage and state both hold the new list |
| BrowserStorage.ProductsHook.GetById | src/lib/hooks/use-storage.ts:42-44 | the first product with the id in the state, or none |
| BrowserStorage.ProductsHook.GetBySlug | src/lib/hooks/use-storage.ts:46-48 | the first product with the slug, or none |
| BrowserStorage.ProductsHook.Create | src/lib/hooks/use-storage.ts:50-54 | appends and saves; the stored categories, the flag and `isLoaded` are unchanged |
| BrowserStorage.ProductsHook.Update | src/lib/hooks/use-storage.ts:56-64 | EVERY product with the id is merged and stamped, the others are untouched; the result is the first product with the id afterwards, which is the stamped first match when the update does not change the id; the stored categories, the flag and `isLoaded` are unchanged |
| BrowserStorage.ProductsHook.Delete | src/lib/hooks/use-storage.ts:66-70 | removes every product with the id, saves, and reports true; the stored categories, the flag and `isLoaded` are unchanged |
| BrowserStorage.CategoriesHook.Load | src/lib/hooks/use-storage.ts:88-95 | initialises storage (afterwards the flag is set; on a first load both sample lists are stored; otherwise both stored lists are kept), then loads the stored categories when there are some, and marks the hook loaded |
| BrowserStorage.CategoriesHook.Save | src/lib/hooks/use-storage.ts:97-100 | storage and state both hold the new list |
| BrowserStorage.CategoriesHook.GetById | src/lib/hooks/use-storage.ts:102-104 | the first category with the id, or none |
| BrowserStorage.CategoriesHook.GetBySlug | src/lib/hooks/use-storage.ts:106-108 | the first category with the slug, or none |
| BrowserStorage.CategoriesHook.Create | src/lib/hooks/use-storage.ts:110-114 | appends and saves; the stored products, the flag and `isLoaded` are unchanged |
| BrowserStorage.CategoriesHook.Update | src/lib/hooks/use-storage.ts:116-122 | every category with the id is merged, with no timestamp; returns the first category with the id afterwards; the stored products, the flag and `isLoaded` are unchanged |
| BrowserStorage.CategoriesHook.Delete | src/lib/hooks/use-storage.ts:124-128 | removes every category with the id and reports true; the stored products, the flag and `isLoaded` are unchanged |
| Validation.ValidateProduct | src/lib/validation.ts:3-12 | valid exactly when every field rule holds, and then carries the form's values with stock as an integer and the parsed status; otherwise the non-empty issue list, in field order |
| Validation.ValidateCategory | src/lib/validation.ts:16-20 | valid exactly when name, slug and description pass; otherwise every issue |
| Validation.ProductIssues | src/lib/validation.ts:3-12 | no issue exactly when every product rule holds |
| Validation.CategoryIssues | src/lib/validation.ts:16-20 | no issue exactly when every category rule holds |
| Validation.ProductIssuesNameEachField | src/lib/validation.ts:4-11 | each broken field contributes its own message, whatever the other fields hold |
| Validation.SlugRefuses | src/lib/validation.ts:5 | the slug rule admits only lower-case letters, digits and hyphens |
| Validation.StatusRule | src/lib/validation.ts:11 | exactly the three statuses are admitted |
| Validation.CategoryRulesAreProductRules | src/lib/validation.ts:17-19 | the category rules are the product rules for the same three fields, so a valid product form's fields form a valid category |
| ProductActions.ValidationFailure | src/app/dashboard/products/actions.ts:30 | the message is "Validation failed: " followed by every issue, joined with ", " |
| ProductActions.NewProduct | src/app/dashboard/products/actions.ts:39-44 | the record carries exactly the validated form fields, the fresh id and the two clock readings |
| ProductActions.FormPatch | src/app/dashboard/products/actions.ts:54-77 | the update never carries `id`, `createdAt` or `updatedAt`, and merging it into any product gives the record of the form's fields with that product's id and timestamps |
| ProductActions.CreateProductAction | src/app/dashboard/products/actions.ts:15-51 | an invalid form fails with every issue, before the slug lookup, and writes nothing; a taken slug fails and writes nothing; otherwise exactly one record is appended, with the fresh id, the form's values and the two clock reads |
| ProductActions.UpdateProductAction | src/app/dashboard/products/actions.ts:53-83 | invalid: fail, no write; a slug held by another id: fail, no write; one's own slug is allowed; otherwise the first product with the id takes the form's fields and the clock, and keeps its id and `createdAt`; an unknown id is not an error |
| ProductActions.DeleteProductAction | src/app/dashboard/products/actions.ts:85-90 | always succeeds; afterwards no product has the id; a missing id writes nothing |
| CategoryActions.CreateCategoryAction | src/app/dashboard/categories/actions.ts:14-42 | invalid: fail with every issue, no write; taken slug: fail, no write; otherwise appends a record of the fresh id and the three fields |
| CategoryActions.FormPatch | src/app/dashboard/categories/actions.ts:45-63 | the update never carries `id`, and merging it into any category keeps the id and takes the three form fields |
| CategoryActions.UpdateCategoryAction | src/app/dashboard/categories/actions.ts:44-67 | invalid or a slug held by another id: fail, no write; otherwise the first category with the id becomes the id and the three form fields |
| CategoryActions.DeleteCategoryAction | src/app/dashboard/categories/actions.ts:69-74 | always succeeds and removes every category with the id; the product store is not in its frame |
| SearchParams.Lookup | src/components/store/product-filters.tsx:34-36 | null exactly when no pair has the name; otherwise the value of the first pair with it |
| SearchParams.WithDeleted | src/components/store/product-filters.tsx:29 | no pair with the name is left, and every pair with another name is kept |
| SearchParams.WithSet | src/components/store/product-filters.tsx:27 | the new pair is present, every pair with the name carries the new value, and with the name removed the list is what it was |
| SearchParams.Updated | src/components/store/product-filters.tsx:24-32 | a sentinel value leaves no pair with the key; any other value is present and is the only value under the key; with the key removed the query is what it was |
| SearchParams.CurrentCategory | src/components/store/product-filters.tsx:34 | never empty: 'all' unless the query holds a non-empty category, which is then shown |
| SearchParams.CurrentSort | src/components/store/product-filters.tsx:35 | never empty: 'default' unless the query holds a non-empty sort, which is then shown |
| SearchParams.CurrentSearch | src/components/store/product-filters.tsx:36 | exactly the stored search term, and '' when there is none |
| SearchParams.URLSearchParams.Set | src/components/store/product-filters.tsx:27 | the pairs become `WithSet` of the old pairs |
| SearchParams.URLSearchParams.Delete | src/components/store/product-filters.tsx:29 | the pairs become `WithDeleted` of the old pairs |
| SearchParams.UpdateFilter | src/components/store/product-filters.tsx:24-32 | the new query sets the key for a value other than '', 'all' and 'default', and deletes it otherwise |
| SearchParams.LookupAfterSet | src/components/store/product-filters.tsx:27 | after `set`, reading the name gives the value |
| SearchParams.LookupAfterDeleteOther | src/components/store/product-filters.tsx:29 | `delete` leaves every other name reading as before |
| SearchParams.LookupAfterSetOther | src/components/store/product-filters.tsx:27 | `set` leaves every other name reading as before |
| SearchParams.UpdateFilterRoundTrip | src/components/store/product-filters.tsx:24-36 | after `updateFilter(k, v)`, reading k gives v, or the control's default for a sentinel value; other keys read as before |
| SearchParams.UpdateFilterWritesNoSentinel | src/components/store/product-filters.tsx:26 | the edited key never holds '', 'all' or 'default' |
| SearchParams.SearchForSentinelClears | src/components/store/product-filters.tsx:26-36 | searching for "all" or "default" clears the search; absent values read as 'all', 'default' and '' |
| Storefront.FilterAndSort | src/app/home-content.tsx:20-66 | the effect's result is `Displayed`: active products, then the category, then the search, then the selected sort |
| Storefront.FilteredIsSelection | src/app/home-content.tsx:23-29 | with no search term, the list before sorting is the order-preserving subsequence of products that are active and in the chosen category |
| Storefront.KeepActiveIsSelection | src/app/home-content.tsx:23 | the status filter alone keeps exactly the active products, in order |
| Storefront.KeepActiveThenCategory | src/app/home-content.tsx:23-29 | the two filters in turn keep exactly the products that pass both, in order |
| Storefront.ParseSort | src/app/home-content.tsx:42-62 | a sort is selected exactly for the five values the switch names |
| Storefront.Displayed | src/app/home-content.tsx:20-63 | the displayed list is the filtered list reordered: same multiset, same length |
| Storefront.DisplayedActiveInCategory | src/app/home-content.tsx:23-29 | with no search term every displayed product is active, and in the chosen category when there is one |
| Storefront.AllCategoriesIsNoCategory | src/app/home-content.tsx:26-29 | a category of 'all' or '' shows the same list as no category parameter |
| Storefront.DisplayedOrdered | src/app/home-content.tsx:44-62 | price-asc gives non-decreasing prices, price-desc non-increasing prices, name-asc and name-desc follow the collation, and newest gives non-increasing creation times |
| Storefront.UnrecognisedSortKeepsOrder | src/app/home-content.tsx:43-62 | an absent, 'default' or unknown sort value leaves the filtered order, since the switch has no default branch |
| Storefront.DisplayedStable | src/app/home-content.tsx:46-60 | products with equal sort keys keep their filtered order |
| Storefront.PriceAscExample | src/app/home-content.tsx:23-47 | [10 active, 5 active, 20 draft] sorted by price-asc shows [5, 10] |
| Storefront.SortNames | src/app/home-content.tsx:41-62 | the five recognised sort values select their own orders; '' and 'default' select none |
| Storefront.SortedCopy | src/app/home-content.tsx:45 | sorting the list in an array in place yields `SortBy` of the list |
| Dashboard.ActiveCount | src/app/dashboard/page.tsx:15 | the active count and the number of other products add up to all products; 0 exactly when no product is active, all exactly when every one is |
| Dashboard.ActiveCountAppend | src/app/dashboard/page.tsx:15 | no products count 0, and a new product adds one exactly when it is active |
| Dashboard.TotalStock | src/app/dashboard/page.tsx:16 | never negative while no stock is |
| Dashboard.InventoryValue | src/app/dashboard/page.tsx:83 | never negative while no price and no stock is |
| Dashboard.TotalCategories | src/app/dashboard/page.tsx:17 | the number of categories, 0 exactly for none |
| Dashboard.AppendAdds | src/app/dashboard/page.tsx:16-83 | appending a product adds exactly its stock to the total stock and its price × stock to the inventory value |
| Dashboard.TotalsConcat | src/app/dashboard/page.tsx:16-83 | the totals of two lists together are the sums of their totals |
| Dashboard.TotalStockBounds | src/app/dashboard/page.tsx:16 | with no negative stock, the total is non-negative and at least each product's stock |
| Dashboard.TotalsSplitByStatus | src/app/dashboard/page.tsx:15-83 | total stock and inventory value are those of the active products plus those of the others |
| Dashboard.CategoryName | src/app/dashboard/products/page.tsx:22-24 | the name of the first category with the id; 'Uncategorized' when none matches or that name is empty |
| Dashboard.StatusBadge | src/app/dashboard/products/page.tsx:26-33 | draft→secondary, inactive→outline, anything else (active included)→default; never destructive |
| Dashboard.StatusBadgesDistinct | src/app/dashboard/products/page.tsx:27-31 | the three stored statuses get three different badges |
| Auth.Authorized | src/lib/auth.config.ts:8-19 | paths outside "/dashboard" are open; dashboard paths need a signed-in admin |
| Auth.IsAdmin | src/lib/auth.config.ts:9-14 | only a signed-in user can be an admin, and only with the role 'admin'; a user with that role is one |
| Auth.AuthorizedFor | src/lib/auth.config.ts:13-18 | an admin may open every page; anyone else exactly the pages outside "/dashboard" |
| Auth.GateIsPrefixTest | src/lib/auth.config.ts:11 | the test is a plain prefix test: "/dashboard-x" is gated too, and "/" is open |
| Auth.Jwt | src/lib/auth.config.ts:20-25 | with a user the token's role becomes the user's; without one the token is unchanged; the same token is returned |
| Auth.SessionCallback | src/lib/auth.config.ts:26-31 | with a token the session user's role becomes the token's; otherwise it is unchanged |
| Auth.SignIn | src/lib/auth.config.ts:20-31 | after `jwt` and then `session`, the session carries the user's role, so the session passes the gate exactly when the user does |
| DbScripts.TrimAll | src/lib/db/setup.ts:22 | each piece trimmed, same length |
| DbScripts.NonEmpty | src/lib/db/setup.ts:23 | drops exactly the empty strings: every kept string is non-empty and from the input, and every non-empty input string is kept |
| DbScripts.Statements | src/lib/db/setup.ts:20-23 | no statement is empty, and a file without a marker is its trimmed text as one statement, or nothing when that is empty |
| DbScripts.NonEmptyAppend | src/lib/db/seed.ts:39 | the filter works piece by piece, so order is kept |
| DbScripts.MarkerUnbordered | src/lib/db/setup.ts:21 | no proper suffix of the marker is a prefix of it |
| DbScripts.FirstMarkerAfter | src/lib/db/setup.ts:21 | after a marker-free text, the first marker is the one right after it |
| DbScripts.StatementsOfTwoParts | src/lib/db/setup.ts:20-23 | statements come out in file order: a first part gives its trimmed text, if non-empty, ahead of the rest's statements |
| DbScripts.StatementsAreClean | src/lib/db/seed.ts:39 | every statement is non-empty, has no white space at either end, and contains no marker |
| DbScripts.Classify | src/lib/db/seed.ts:46-52 | errors mentioning "already exists" or "Duplicate" are skipped, other errors are warnings that carry the message, and successes are executed |
| DbScripts.RunTolerant | src/lib/db/seed.ts:41-54 | every statement is run and logged by its own outcome, whatever happened to the ones before; an outcome may depend on the statement's position as well as its text, as a repeated `CREATE` does |
| DbScripts.RunStrict | src/lib/db/setup.ts:27-31 | the returned count of statements all succeeded, and when it is short the next statement failed |
| DbScripts.Pick | src/lib/db/seed.ts:73 | the character at index floor(draw × length) of the class |
| DbScripts.Password | src/lib/db/seed.ts:72-82 | eight characters, two from each class, in the class order upper, lower, digit, special |
| DbScripts.PasswordShape | src/lib/db/setup.ts:49-59 | character i is drawn from class i mod 4 by the i-th draw |
| SeedScript.EnvEntry | src/lib/db/seed.ts:19-20 | a line with no '=' and a line starting with '=' are ignored |
| SeedScript.EnvEntryAtFirstEquals | src/lib/db/seed.ts:19-22 | a line gives the trimmed text before its first '=' and the trimmed text after it; a line with no '=' or an empty raw key is ignored |
| SeedScript.ValueKeepsEquals | src/lib/db/seed.ts:19-21 | a value may contain '=': only the first one separates |
| SeedScript.ParseEnv | src/lib/db/seed.ts:16-23 | the loop fills the settings as `EnvOf` of the lines |
| SeedScript.EnvOf | src/lib/db/seed.ts:18-23 | every key some line writes is set |
| SeedScript.LastEntryWins | src/lib/db/seed.ts:21 | a key is set exactly when some entry writes it, and the last such entry decides its value |
| SeedScript.LastLineWins | src/lib/db/seed.ts:18-23 | a later line with the same key overwrites an earlier one |
| SeedScript.SeedRows | src/lib/db/seed.ts:91-127 | the admin row, then every category, then every product, in order |
| SeedScript.InsertRows | src/lib/db/seed.ts:90-127 | the admin insert and the two loops produce exactly `SeedRows`: the admin, every category, every product, in order |
| SeedScript.SeedMain | src/lib/db/seed.ts:9-137 | a missing or empty DATABASE_URL stops the script before any statement; every statement is then run and classified; an existing admin ends the run before the password and the inserts; otherwise the password is drawn and the rows inserted |
| SetupScript.SetupMain | src/lib/db/setup.ts:9-112 | the first failing statement ends the run; with every statement run, an existing admin ends it before the password is drawn; otherwise the password is drawn |

## Left out

- The product server actions import their store from `src/lib/db/queries.ts` (Postgres through drizzle). Here they run against the file store of `src/lib/data/products.ts`, and `src/lib/db/queries.ts` is not part of this model. The database table differs from the file store in these ways, none of them modelled:
  - `categoryId` is a foreign key with `onDelete: 'restrict'` (`src/lib/db/schema.ts:53`). A product naming a missing category is refused, and deleting a category that products still name fails.
  - `slug` is `varchar(255)` (`src/lib/db/schema.ts:47`) and `image` is `varchar(1000)` (`src/lib/db/schema.ts:51`). The validation schema (`src/lib/validation.ts:5-10`) sets no maximum for either, so a longer value passes validation and fails at the insert.
  - `stock` is a 32-bit `integer` (`src/lib/db/schema.ts:50`). A stock outside that range passes validation and fails at the insert.
  - `price` is `decimal(10,2)` (`src/lib/db/schema.ts:49`). It is rounded to cents, a price of 10^8 or more fails, and it is read back through `parseFloat` (`src/lib/db/queries.ts:7-12`).
  - `slug` is `unique` in the table (`src/lib/db/schema.ts:47`), so a duplicate slug fails there. The file store accepts it.
- File and network I/O, `JSON.parse`/`JSON.stringify`, `ensureDataDir`, `fs`, the console, `revalidatePath`, `redirect` and `router.push` are not modelled. A file that cannot be read or parsed is one `Unreadable` value.
- React state timing is not modelled: `useState`, `useEffect` and `useCallback` closures over stale state, and the asynchronous interleaving of concurrent calls. Each hook method sees the state of the previous call.
- The fuzzy search (Fuse.js) is an opaque function parameter, because its ranking is not visible. The properties that look at membership are stated with no search term.
- `localeCompare` is a collation rank `collate: string -> real`. That assumes the locale order is a total preorder.
- Floating-point arithmetic is not modelled. Prices and the inventory value are `real`, so NaN, Infinity and rounding are out, and `parseFloat`/`parseInt` are reduced to a number or NaN (`None`).
- String lengths are counted in code points, not UTF-16 units, for the 255-character name limit.
- Dates are integer milliseconds. `new Date(...).getTime()` on an unparsable date (NaN) is not modelled.
- Validation.ValidateProduct: the default messages for a NaN number, a fractional stock and a bad enum value are those of zod 3. zod itself is not part of this model.
- Dashboard.StatusBadge: an inherited property name such as "constructor" as a status finds a function on the lookup object. That value is truthy and is passed as the variant. The model sends every unknown status to `default`.
- SeedScript.SeedMain: the inserts are assumed to succeed. An insert failure ends in `process.exit(1)`, which is not modelled. bcrypt hashing is left out.
- SetupScript.SetupMain: the script's fixed category and product rows and its lookup of category ids by slug are not modelled. Its database URL is not checked before connecting, and connecting is outside this model.
- `slugify`, the product form, the UI components and `seed-runner.js` are not part of this model.
- The `Record` types allow explicitly `undefined` spread keys. A patch field here is either absent or a value.
