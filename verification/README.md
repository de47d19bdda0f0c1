# Confeitaria store: a Dafny model of its state and form logic

The application is a small storefront for a cake shop with an owner's
dashboard. Its state lives in a React context, the store state manager.
That state is three cells: the product list, the category list and the
store's configuration. Each cell starts from what the browser's
`localStorage` holds under its key, or from the seed data when the key is
empty. Each cell is written back to its key whenever it changes.
The dashboard has a category panel and a product form. The storefront lists
the products filtered by a search text and a category tab. The registration
page derives a store address from the store name and checks that the two
passwords match. The overview shows each order's status as a coloured,
translated badge.

The Dafny modules follow the source files:

- `Wrappers`: `Option` and `Result`.
- `Collections`: filter, update by id, remove by id and remove by index over
  sequences.
- `Text`: the JavaScript string operations the code uses: `toLowerCase`,
  `trim`, `includes` and `replace(/X+/g, sep)`.
- `Types`: the records of `src/types/index.ts`, and the object-spread merges
  `{ ...x, ...patch }` as functions on patch records.
- `MockData`: the seed store, categories, products and orders, as the
  constants `SeedStore` (`src/data/mockData.ts:6-17`), `SeedCategories`
  (`src/data/mockData.ts:19-26`), `SeedProducts` (`src/data/mockData.ts:28-100`)
  and `SeedOrders` (`src/data/mockData.ts:102-128`). Being constants, they
  have no rows below; the `MockData.Seed*` lemmas state their properties.
- `StoreContext`: the class `StoreManager`, with the three cells, the storage
  map, loading with fallback, and every mutator.
- `DashboardCategories`: the category slug and the class `CategoryPanel`.
- `ProductForm`: the class `ProductFormState`, the tier guard and the submit.
- `Storefront`: the storefront filter.
- `Register`: the address slug, the form update and the class `RegisterPage`.
- `Overview`: the status colour and status label maps.

## Model

| member | source | states |
|---|---|---|
| Collections.Filter | src/pages/Store.tsx:15-21 | the result is never longer than the input |
| Collections.FilterSpec | src/components/dashboard/Categories.tsx:67-68 | a filter's result is a subsequence of its input; a kept element occurs as often as in the input, a dropped one not at all |
| Collections.FilterMembers | src/pages/Store.tsx:15-21 | an element is in a filter's result exactly when it is in the input and satisfies the predicate |
| Collections.FilterAppend | src/contexts/StoreContext.tsx:61-63 | filtering a concatenation is concatenating the filtered parts |
| Collections.FilterKeepsAll | src/pages/Store.tsx:15-21 | a filter whose predicate holds for every element gives its input back |
| Collections.FilterAgree | src/pages/Store.tsx:15-21 | two predicates that agree on every element give the same result |
| Collections.FilterTwice | src/contexts/StoreContext.tsx:61-63 | filtering twice with the same predicate is filtering once |
| Collections.WithoutIdSpec | src/contexts/StoreContext.tsx:61-63 | removing by id keeps exactly the elements with another id, in order |
| Collections.WithoutId | src/contexts/StoreContext.tsx:61-63 | no contract of its own: the filter that removes by id; its properties are `Collections.WithoutIdSpec`, `WithoutIdTwice`, `WithoutAbsentId` and `AppendThenRemove` |
| Collections.WithoutIdTwice | src/contexts/StoreContext.tsx:77-79 | removing the same id twice is removing it once |
| Collections.WithoutAbsentId | src/contexts/StoreContext.tsx:77-79 | removing an id no element has changes nothing |
| Collections.AppendThenRemove | src/contexts/StoreContext.tsx:49-63 | appending an element under a fresh id and removing that id gives the list back |
| Collections.UpdateWhere | src/contexts/StoreContext.tsx:57-59 | same length; the elements with the id are replaced by the update of themselves, all others stay |
| Collections.UpdateAbsentId | src/contexts/StoreContext.tsx:73-75 | updating an id no element has changes nothing |
| Collections.UpdateTwice | src/contexts/StoreContext.tsx:57-59 | an idempotent update applied twice by id is applied once |
| Collections.WithoutIndexSpec | src/components/dashboard/ProductForm.tsx:73-75 | an index in range removes exactly that element and keeps the order of the rest; an index out of range changes nothing |
| Collections.WithoutIndex | src/components/dashboard/ProductForm.tsx:73-75 | no contract of its own: `filter((_, i) => i !== index)`; its properties are `Collections.WithoutIndexSpec` |
| Text.LowerChar | src/pages/Store.tsx:16-17 | an upper-case letter becomes a lower-case one, any other character stays |
| Text.Lower | src/pages/Store.tsx:16-17 | same length, and each character is lowered at its own position |
| Text.LowerHasNoUpper | src/pages/Register.tsx:29 | lowered text holds no upper-case letter |
| Text.LowerOfLower | src/pages/Register.tsx:29 | text without upper-case letters is its own lowering |
| Text.LowerTwice | src/pages/Store.tsx:16-17 | lowering is idempotent |
| Text.LowerAppend | src/components/dashboard/Categories.tsx:35 | lowering distributes over concatenation |
| Text.IsSpace | src/pages/Register.tsx:31 | no contract of its own: JavaScript's `\s` class, which `trim()` also removes; `Text.TrimEmpty`, `Register.SlugifyShape` and `DashboardCategories.SlugChars` use it |
| Text.TrimStartEmpty | src/components/dashboard/Categories.tsx:30 | trimming the start gives empty text exactly when every character is whitespace |
| Text.TrimEndEmpty | src/components/dashboard/Categories.tsx:30 | trimming the end gives empty text exactly when every character is whitespace |
| Text.TrimEmpty | src/components/dashboard/Categories.tsx:30 | `trim()` is empty exactly when the name is blank (empty or whitespace only) |
| Text.TrimStartShape | src/pages/Register.tsx:33 | trimming the start leaves text that is empty or starts with a non-space character |
| Text.TrimWithoutSpace | src/pages/Register.tsx:33 | text without whitespace is unchanged by `trim()` |
| Text.Trim | src/components/dashboard/Categories.tsx:30 | no contract of its own: `trim()` as both end trims; its properties are `Text.TrimEmpty`, `TrimStartShape` and `TrimWithoutSpace` |
| Text.IncludesAt | src/pages/Store.tsx:16-17 | `includes` holds exactly when the search text occurs at some position |
| Text.Includes | src/pages/Store.tsx:16-17 | no contract of its own: `includes`; `Text.IncludesAt` proves it holds exactly when the search text occurs at some position |
| Text.SkipRun | src/pages/Register.tsx:31-32 | what is left after a run is no longer than the text and does not start with a character of the class |
| Text.SkipRunPart | src/pages/Register.tsx:31-32 | every character left after a run is a character of the text, for any character class |
| Text.ReplaceRunsNone | src/pages/Register.tsx:31-32 | text without class characters is unchanged by the replacement |
| Text.ReplacePlainThenLone | src/components/dashboard/Categories.tsx:35 | a plain prefix followed by a lone class character: the prefix passes through and the character becomes one separator |
| Text.ReplaceRunsChars | src/pages/Register.tsx:31-32 | every character of the result is the separator or a character of the input outside the class |
| Text.ReplaceRunsSeparated | src/pages/Register.tsx:31-32 | every class character in the result is the separator and is not followed by another class character: runs come out as single separators |
| Text.ReplaceRunsFixed | src/pages/Register.tsx:32 | text whose class characters are all lone separators is unchanged |
| Text.ReplaceRunsAfterPlain | src/components/dashboard/Categories.tsx:35 | a prefix without class characters passes through the replacement unchanged |
| Text.ReplaceLone | src/components/dashboard/Categories.tsx:35 | a lone class character becomes one separator |
| Text.ReplaceRuns | src/pages/Register.tsx:31-32 | no contract of its own: `replace(/c+/g, sep)` for a character class; its properties are `Text.ReplaceRunsChars`, `ReplaceRunsSeparated`, `ReplaceRunsFixed`, `ReplaceRunsNone` and `ReplaceLone` |
| Types.OverLater | src/contexts/StoreContext.tsx:57-59 | two spreads of one optional key in a row are one spread of the later value |
| Types.WithId | src/contexts/StoreContext.tsx:49-55 | the new product carries the given id and exactly the submitted fields |
| Types.MergeProduct | src/contexts/StoreContext.tsx:57-59 | the merged product keeps its id unless the patch sets one; the spread laws are `Types.MergeProductLaws` |
| Types.MergeProductLaws | src/contexts/StoreContext.tsx:57-59 | an empty patch changes nothing; a patch applied twice is applied once; two patches in a row are their combination |
| Types.CategoryWithId | src/contexts/StoreContext.tsx:65-71 | the new category carries the given id and exactly the submitted fields |
| Types.MergeCategory | src/contexts/StoreContext.tsx:73-75 | the merged category keeps its id unless the patch sets one; `Types.MergeCategoryTwice` |
| Types.MergeCategoryTwice | src/contexts/StoreContext.tsx:73-75 | a category patch applied twice is applied once |
| Types.MergeStore | src/contexts/StoreContext.tsx:81-83 | the merged configuration keeps its id unless the patch sets one; the spread laws are `Types.MergeStoreLaws` |
| Types.MergeStoreLaws | src/contexts/StoreContext.tsx:81-83 | an empty patch changes nothing; a patch applied twice is applied once; two patches in a row are their combination |
| MockData.ItemsTotal | src/data/mockData.ts:102-128 | the total of items with non-negative prices and quantities is non-negative |
| MockData.SeedCategoriesDistinct | src/data/mockData.ts:19-26 | the seed categories have pairwise distinct ids and slugs |
| MockData.SeedProductIdsDistinct | src/data/mockData.ts:28-100 | the seed products have pairwise distinct ids |
| MockData.SeedProductCategoriesExist | src/data/mockData.ts:28-100 | every seed product names the slug of a seed category other than `todos` |
| MockData.SeedOrderSubtotals | src/data/mockData.ts:102-128 | each seed order's subtotal is the sum of price times quantity over its items |
| MockData.SeedTiersOrdered | src/data/mockData.ts:29-44 | the first seed product has wholesale tiers, with strictly increasing quantities, each cheaper than the unit price |
| StoreContext.LoadAfterSave | src/contexts/StoreContext.tsx:21-47 | what the effects save under the three keys loads back as the same three cells |
| StoreContext.LoadIsPerKey | src/contexts/StoreContext.tsx:21-47 | writing one key leaves the loading of the other two cells unchanged |
| StoreContext.LoadFallback | src/contexts/StoreContext.tsx:21-34 | an absent key or one holding the empty string loads the seed data; malformed text fails to load |
| StoreContext.LoadProducts | src/contexts/StoreContext.tsx:21-24 | an absent or empty key loads the seed products; a failed load names the products key; any other success is the stored list |
| StoreContext.LoadCategories | src/contexts/StoreContext.tsx:26-29 | an absent or empty key loads the seed categories; a failed load names the categories key; any other success is the stored list |
| StoreContext.LoadConfig | src/contexts/StoreContext.tsx:31-34 | an absent or empty key loads the seed store; a failed load names the configuration key; any other success is the stored value |
| StoreContext.FirstLoadError | src/contexts/StoreContext.tsx:21-34 | no contract of its own: the error of the first initialiser, in declaration order, that throws; `StoreContext.StoreManager.Open` reports it |
| StoreContext.Saved | src/contexts/StoreContext.tsx:37-47 | no contract of its own: storage once the three effects have written their cells; `StoreContext.LoadAfterSave` loads each cell back unchanged |
| StoreContext.UpdatedProductsAt | src/contexts/StoreContext.tsx:57-59 | same length; the products with the id are merged with the patch, all others stay |
| StoreContext.UpdatedProducts | src/contexts/StoreContext.tsx:57-59 | no contract of its own: the `map` of `updateProduct`; its properties are `StoreContext.UpdatedProductsAt` and `UpdateProductLaws` |
| StoreContext.UpdateProductLaws | src/contexts/StoreContext.tsx:57-59 | an absent id changes nothing; the same update twice is the update once |
| StoreContext.DeleteProductLaws | src/contexts/StoreContext.tsx:61-63 | deletion keeps exactly the products with another id, in order; it is idempotent; an absent id changes nothing |
| StoreContext.DeletedProducts | src/contexts/StoreContext.tsx:61-63 | no contract of its own: the `filter` of `deleteProduct`; its properties are `StoreContext.DeleteProductLaws` and `AddThenDeleteProduct` |
| StoreContext.AddThenDeleteProduct | src/contexts/StoreContext.tsx:49-63 | adding under a fresh id and deleting that id gives the list back |
| StoreContext.AddKeepsDuplicateId | src/contexts/StoreContext.tsx:49-55 | adding under an id already present keeps both products: ids are not checked |
| StoreContext.UpdatedCategoriesAt | src/contexts/StoreContext.tsx:73-75 | same length; the categories with the id are merged with the patch, all others stay |
| StoreContext.UpdatedCategories | src/contexts/StoreContext.tsx:73-75 | no contract of its own: the `map` of `updateCategory`; its properties are `StoreContext.UpdatedCategoriesAt` and `UpdateCategoryLaws` |
| StoreContext.UpdateCategoryLaws | src/contexts/StoreContext.tsx:73-75 | an absent id changes nothing; the same update twice is the update once |
| StoreContext.DeleteCategoryLaws | src/contexts/StoreContext.tsx:77-79 | deletion keeps exactly the categories with another id, in order; it is idempotent; an absent id changes nothing |
| StoreContext.DeletedCategories | src/contexts/StoreContext.tsx:77-79 | no contract of its own: the `filter` of `deleteCategory`; its properties are `StoreContext.DeleteCategoryLaws` and `AddThenDeleteCategory` |
| StoreContext.AddThenDeleteCategory | src/contexts/StoreContext.tsx:65-79 | adding under a fresh id and deleting that id gives the list back |
| StoreContext.StoreManager.Valid | src/contexts/StoreContext.tsx:37-47 | no contract of its own: each cell is stored under its key, as the effects leave it; every operation of the manager keeps it |
| StoreContext.StoreManager.constructor | src/contexts/StoreContext.tsx:21-47 | the cells hold the given values and storage holds them under their keys |
| StoreContext.StoreManager.Open | src/contexts/StoreContext.tsx:21-47 | mounting succeeds exactly when all three keys load; it then holds the loaded cells, each saved back; otherwise it reports the first key that fails |
| StoreContext.StoreManager.AddProduct | src/contexts/StoreContext.tsx:49-55 | the product is appended under the new id; the other cells stay; only the products key is rewritten |
| StoreContext.StoreManager.UpdateProduct | src/contexts/StoreContext.tsx:57-59 | the products with the id are merged with the patch; the other cells stay; only the products key is rewritten |
| StoreContext.StoreManager.DeleteProduct | src/contexts/StoreContext.tsx:61-63 | no product with the id is left, the rest keep their order; only the products key is rewritten |
| StoreContext.StoreManager.AddCategory | src/contexts/StoreContext.tsx:65-71 | the category is appended under the new id; only the categories key is rewritten |
| StoreContext.StoreManager.UpdateCategory | src/contexts/StoreContext.tsx:73-75 | the categories with the id are merged with the patch; only the categories key is rewritten |
| StoreContext.StoreManager.DeleteCategory | src/contexts/StoreContext.tsx:77-79 | no category with the id is left; only the categories key is rewritten |
| StoreContext.StoreManager.UpdateStore | src/contexts/StoreContext.tsx:81-83 | the configuration is merged with the patch; only the configuration key is rewritten |
| DashboardCategories.Decompose | src/components/dashboard/Categories.tsx:35 | the NFD decomposition of a character has one or two characters |
| DashboardCategories.Nfd | src/components/dashboard/Categories.tsx:35 | no contract of its own: `normalize('NFD')` character by character; `DashboardCategories.NfdChars` bounds what it adds |
| DashboardCategories.NfdChars | src/components/dashboard/Categories.tsx:35 | every character of the NFD output comes from the input, or is a lower-case ASCII base letter or a combining mark |
| DashboardCategories.StripMarks | src/components/dashboard/Categories.tsx:35 | no contract of its own: `replace(/[\u0300-\u036f]/g, '')` as a filter; `DashboardCategories.SlugChars` shows no mark is left |
| DashboardCategories.Slug | src/components/dashboard/Categories.tsx:35 | no contract of its own: lower, join whitespace runs with `-`, NFD, strip combining marks; its properties are `DashboardCategories.SlugChars`, `SlugOfPlain` and the example lemmas below |
| DashboardCategories.SlugChars | src/components/dashboard/Categories.tsx:35 | a slug holds no whitespace, no combining mark and no upper-case letter |
| DashboardCategories.SlugOfPlain | src/components/dashboard/Categories.tsx:35 | the slug of printable ASCII text without spaces is its lowering |
| DashboardCategories.SlugOfWord | src/components/dashboard/Categories.tsx:35 | "Sobremesas" has the slug "sobremesas" |
| DashboardCategories.SlugOfTwoWords | src/components/dashboard/Categories.tsx:35 | "Bolos Especiais" has the slug "bolos-especiais" |
| DashboardCategories.SlugKeepsEdges | src/components/dashboard/Categories.tsx:30-35 | an untrimmed name " Bolos" has the slug "-bolos": the name is not trimmed before the slug is built |
| DashboardCategories.SlugDropsAccents | src/components/dashboard/Categories.tsx:35 | "Cafés" and "cafes" have the same slug "cafes" |
| DashboardCategories.PipelineAroundLetter | src/components/dashboard/Categories.tsx:35 | one decomposable letter between plain texts comes out as its base letter |
| DashboardCategories.SlugKeepsPunctuation | src/components/dashboard/Categories.tsx:35 | punctuation is kept: "Bolo!" and "Bolo?" get the different slugs "bolo!" and "bolo?" |
| DashboardCategories.InitialCategoriesValue | src/components/dashboard/Categories.tsx:22 | the panel starts with the seed categories after `todos`, none with the slug `todos` |
| DashboardCategories.InitialCategories | src/components/dashboard/Categories.tsx:22 | no contract of its own: the seed without `todos`; `DashboardCategories.InitialCategoriesValue` gives its value |
| DashboardCategories.Renamed | src/components/dashboard/Categories.tsx:53 | no contract of its own: `{ ...cat, name, slug }`; `DashboardCategories.RenamedCategoriesAt` states its effect |
| DashboardCategories.RenamedCategoriesAt | src/components/dashboard/Categories.tsx:51-55 | renaming keeps length, order and ids; the target gets the name and its slug, others stay |
| DashboardCategories.RenamedCategories | src/components/dashboard/Categories.tsx:51-55 | no contract of its own: the `map` of `handleEditCategory`; `DashboardCategories.RenamedCategoriesAt` states it per position |
| DashboardCategories.CategoryPanel.constructor | src/components/dashboard/Categories.tsx:22-26 | the list starts as the seed without `todos`; the input is empty and nothing is edited |
| DashboardCategories.CategoryPanel.SetNewCategoryName | src/components/dashboard/Categories.tsx:107 | the input holds the typed value; the list stays |
| DashboardCategories.CategoryPanel.AddCategory | src/components/dashboard/Categories.tsx:29-46 | a blank name changes nothing; otherwise the untrimmed name and its slug are appended under the new id and the input is cleared |
| DashboardCategories.CategoryPanel.StartEditCategory | src/components/dashboard/Categories.tsx:77-78 | the category becomes the target and its name fills the input |
| DashboardCategories.CategoryPanel.EditCategory | src/components/dashboard/Categories.tsx:48-65 | without a target or with a blank name nothing changes; otherwise the target's id is renamed and the target and input are cleared |
| DashboardCategories.CategoryPanel.DeleteCategory | src/components/dashboard/Categories.tsx:67-74 | every category with the id goes; the rest stay, in order |
| ProductForm.Round | src/components/dashboard/ProductForm.tsx:68 | `Math.round` gives the integer within half of its argument |
| ProductForm.RoundWhole | src/components/dashboard/ProductForm.tsx:91 | rounding a whole number gives it back |
| ProductForm.CentsRoundTrip | src/components/dashboard/ProductForm.tsx:34 | a price shown in reais turns back into the same cents on submit |
| ProductForm.InitialForm | src/components/dashboard/ProductForm.tsx:31-41 | a new form has every field empty, no price, stock 0 and no promotion; an edit form shows the product's price so that it rounds back to the same cents |
| ProductForm.InitialTiers | src/components/dashboard/ProductForm.tsx:43-45 | no contract of its own: `product?.wholesaleTiers \|\| []`; `ProductForm.UntouchedEditKeepsProduct` uses it |
| ProductForm.AcceptsTier | src/components/dashboard/ProductForm.tsx:63-67 | no contract of its own: the guard of `addWholesaleTier`; `ProductForm.TierGuardTakesOne`, `TierPriceCanRoundToZero` and `ProductFormState.AddWholesaleTier` state what it lets through |
| ProductForm.TierOf | src/components/dashboard/ProductForm.tsx:63-71 | the tier keeps the positive quantity; its price in cents is not negative and within half a cent of the typed price times 100 (`Math.round`) |
| ProductForm.TierGuardTakesOne | src/components/dashboard/ProductForm.tsx:63-71 | the guard accepts a minimum quantity of 1 |
| ProductForm.TierPriceCanRoundToZero | src/components/dashboard/ProductForm.tsx:63-71 | a positive price below half a cent passes the guard and gives a tier of 0 cents |
| ProductForm.IsComplete | src/components/dashboard/ProductForm.tsx:80-87 | no contract of its own: the required-field guard of `handleSubmit`; `ProductForm.Submit` rejects exactly the forms it refuses |
| ProductForm.ProductData | src/components/dashboard/ProductForm.tsx:89-100 | the record carries the form's name, description, category, image, preparation time, stock and promotion fields, the price in rounded cents, and the tiers exactly when there are any |
| ProductForm.PatchOf | src/components/dashboard/ProductForm.tsx:102-108 | merging the record into any product gives that product's id with exactly the record's fields |
| ProductForm.Submit | src/components/dashboard/ProductForm.tsx:77-117 | rejected exactly when a required field is missing; creates exactly when complete without a product, with the record built from the form; otherwise updates the edited product's id with that record as a patch |
| ProductForm.SubmitWithoutTiersClears | src/components/dashboard/ProductForm.tsx:99-104 | submitting an edit with no tiers clears the product's tiers |
| ProductForm.SubmitEditResult | src/components/dashboard/ProductForm.tsx:102-108 | an edit gives the product exactly the submitted fields and keeps its id |
| ProductForm.UntouchedEditKeepsProduct | src/components/dashboard/ProductForm.tsx:31-45 | submitting an untouched edit form gives the product back when it is complete and carries its optional fields |
| ProductForm.ProductFormState.constructor | src/components/dashboard/ProductForm.tsx:31-47 | the form, tiers and pending tier start from the product, or empty |
| ProductForm.ProductFormState.SetFormData | src/components/dashboard/ProductForm.tsx:132 | the form holds the new fields; tiers and pending tier stay |
| ProductForm.ProductFormState.SetNewTier | src/components/dashboard/ProductForm.tsx:310-321 | the pending tier holds the input; form and tiers stay |
| ProductForm.ProductFormState.AddWholesaleTier | src/components/dashboard/ProductForm.tsx:63-71 | an accepted pending tier is appended and the pending fields emptied; otherwise nothing changes |
| ProductForm.ProductFormState.RemoveWholesaleTier | src/components/dashboard/ProductForm.tsx:73-75 | the tier at the index goes and the rest keep their order; an index out of range changes nothing |
| ProductForm.ProductFormState.HandleSubmit | src/components/dashboard/ProductForm.tsx:77-117 | saved exactly when the form is complete; then the product is added or merged in the manager and the products key of storage is rewritten with the new list; otherwise the manager is unchanged |
| Storefront.Shown | src/pages/Store.tsx:15-19 | no contract of its own: the filter's predicate, a case-blind search in name or description and the category tab; `Storefront.VisibleSpec` lists exactly the products it holds for |
| Storefront.VisibleSpec | src/pages/Store.tsx:15-21 | a product is listed exactly when it matches the search and the tab; the list keeps order and multiplicity |
| Storefront.VisibleProducts | src/pages/Store.tsx:15-21 | no contract of its own: the storefront `filter`; its properties are `Storefront.VisibleSpec`, `InitialShowsAll`, `CategoryTabFilters` and `SearchIgnoresCase` |
| Storefront.StorefrontProducts | src/pages/Store.tsx:14-20 | no contract of its own: the filter over the seed products; `Storefront.StorefrontStartsWithAll` gives its opening value |
| Storefront.IncludesEmpty | src/pages/Store.tsx:16-17 | the empty search occurs in every text |
| Storefront.InitialShowsAll | src/pages/Store.tsx:11-21 | with the empty search and `todos`, every product is listed |
| Storefront.StorefrontStartsWithAll | src/pages/Store.tsx:11-21 | the storefront opens listing the whole seed catalogue, in order |
| Storefront.CategoryTabFilters | src/pages/Store.tsx:18 | under a tab other than `todos`, every listed product is of that category |
| Storefront.SearchIgnoresCase | src/pages/Store.tsx:16-17 | searches equal once lowered list the same products |
| Register.IsWordChar | src/pages/Register.tsx:30 | no contract of its own: `\w` without the `u` flag, ASCII letters, digits and `_` |
| Register.IsSlugSourceChar | src/pages/Register.tsx:30 | no contract of its own: the characters `[^\w\s-]` does not match; `Register.Collapsed` drops every other character |
| Register.Collapsed | src/pages/Register.tsx:28-32 | the result holds only lower-case letters, digits, `_` and `-`, and never two hyphens in a row |
| Register.Slugify | src/pages/Register.tsx:28-33 | no contract of its own: the address derived from a store name; its properties are `Register.SlugifyShape`, `SlugifyFixed`, `SlugifyIdempotent` and the example lemmas below |
| Register.SlugifyIsCollapsed | src/pages/Register.tsx:28-33 | the final `trim()` never changes anything: no whitespace is left at that point |
| Register.SlugifyShape | src/pages/Register.tsx:28-33 | an address holds only lower-case letters, digits, `_` and `-`, no whitespace and no double hyphen |
| Register.SlugifyFixed | src/pages/Register.tsx:28-33 | text already in address shape is its own address |
| Register.SlugifyIdempotent | src/pages/Register.tsx:28-33 | deriving the address twice is deriving it once |
| Register.SlugifyDropsAccents | src/pages/Register.tsx:28-33 | "Delícia de Bolos" gives "delcia-de-bolos": an accented letter is dropped, not stripped to its base |
| Register.SlugifyKeepsEdgeHyphens | src/pages/Register.tsx:28-33 | " bolos " gives "-bolos-": edge hyphens survive |
| Register.SlugifyCollides | src/pages/Register.tsx:28-33 | "Bolo!" and "Bolo?" give the same address "bolo" |
| Register.WithInput | src/pages/Register.tsx:22-36 | the field holds the value; a store name also sets the address derived from it; every other field stays |
| Register.AddressTypedAsIs | src/pages/Register.tsx:148-150 | typing in the address field stores the text as typed |
| Register.StoreNameSetsAddress | src/pages/Register.tsx:22-36 | the address set from a store name is already in address shape |
| Register.RegisterPage.constructor | src/pages/Register.tsx:10-17 | the form starts empty and not loading |
| Register.RegisterPage.HandleInputChange | src/pages/Register.tsx:22-36 | the form becomes the field update of the old form; loading stays |
| Register.RegisterPage.HandleSubmit | src/pages/Register.tsx:38-62 | a mismatch is reported exactly when the passwords differ; the form stays and loading ends |
| Overview.StatusColor | src/components/dashboard/Overview.tsx:44-52 | pending, preparing and ready each have their own colour; every other status is muted |
| Overview.StatusText | src/components/dashboard/Overview.tsx:54-62 | pending, preparing, ready and delivered get Pendente, Preparando, Pronto and Entregue; any other status is shown as it is |
| Overview.MutedStatuses | src/components/dashboard/Overview.tsx:44-52 | among order statuses, the muted colour marks exactly delivered and cancelled |
| Overview.CancelledShownRaw | src/components/dashboard/Overview.tsx:54-62 | only a cancelled order shows its raw status |
| Overview.LabelsDistinct | src/components/dashboard/Overview.tsx:54-62 | different order statuses get different labels |

The two slug rules differ. The dashboard's category slug
(`src/components/dashboard/Categories.tsx:35`) only lowers the name, joins
whitespace runs with `-` and strips accents. It keeps punctuation, so
"Bolo!" and "Bolo?" get the different slugs "bolo!" and "bolo?"
(`DashboardCategories.SlugKeepsPunctuation`). Names differing only in
punctuation share an address only under the registration rule
(`src/pages/Register.tsx:28-33`), which drops every character outside
`[A-Za-z0-9_\s-]` (`Register.SlugifyCollides`). Neither rule checks that a
slug is unique.

The dashboard's category panel keeps its categories in a list of its own,
started from the seed. It never calls the store state manager, so its
additions and edits do not reach storage. The model keeps that separation.

## Left out

- Browser storage and JSON are abstract: a stored value is the empty
  string, a serialized cell of one of the three kinds, or malformed text.
- StoreContext.StoreManager.Open: a key holding the serialized value of a
  different kind is treated as a load failure. The source parses it and
  uses it unchecked.
- StoreContext.StoreManager.Open: malformed text fails the mount. The source
  throws from `JSON.parse` and does not fall back to the seed.
- Types.MergeProductLaws: a patch that sets a required field explicitly to
  `undefined` is not modelled. Required patch fields are either absent or
  set. Optional fields can be cleared.
- Text.Lower: covers ASCII and Latin-1 only. Characters outside Latin-1
  whose lowering is ASCII (U+0130, the Kelvin sign) are not modelled.
- DashboardCategories.Decompose: the NFD table covers the lower-case
  Latin-1 letters only. Other decompositions are taken as the character
  itself.
- Prices are `real`. Floating-point rounding error is not modelled, and
  `Math.round` is floor of x + 0.5.
- ProductForm.FormData: `stock` is an integer. The `NaN` that
  `parseInt` gives for an empty stock field is not modelled.
- Number inputs are given already parsed, with `None` for empty or
  unparseable text.
- ProductForm.IsComplete: a price field holding text that does not parse
  is rejected. The source only checks that the text is not empty, and would
  store the `NaN` that `parseFloat` gives.
- ProductForm.ProductFormState.SetFormData: takes the whole new form. The
  source's handlers each change one field, which is a special case.
- The image upload through `FileReader` is left out. The remove-image button
  is covered by SetFormData.
- Ids from `Date.now()` are parameters (`newId`). Two creations in the same
  millisecond would share an id; `StoreContext.AddKeepsDuplicateId` shows
  that nothing prevents that.
- Toasts, dialogs opening and closing, navigation, the simulated account
  creation delay and other timers are left out.
- Register.RegisterPage.HandleSubmit: only the final `isLoading` (false) is
  stated. The intermediate `true` across the awaited timer is not.
- Register.Field: the field name is an enumeration of the six form
  fields. The source takes any string key.
- The overview's statistics cards and its list of recent orders are fixed
  presentation data and are left out. So are the pages and components that
  only render.
