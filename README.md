# Resin marketplace — a Dafny model of its admin and storefront logic

This project models the logic of the resin marketplace, a Laravel and
React (Inertia) shop selling handmade resin pieces. It covers two sides of
the shop.

- **The admin panel's browser logic.** This is the list filters of the
  product, category and tag pages, and the generic `useAdminFilters`
  hook with its sort and form helpers. It also covers the forms:
  - the starting data of the product, category and artist forms;
  - the slug and username each form derives from a typed name;
  - unsaved-change tracking (`useFormDirty`) and error labelling
    (`useFormErrors`);
  - the tag picker (`TagsInput`).
- **The server and storefront.** This is the admin product controller's
  `store` and `update` actions: validation, attribute preparation, mass
  assignment through `$fillable`, and the tag pivot sync. It also covers:
  - the admin login and logout;
  - the `Tag` model's slug hooks and scopes, and the tag seeder;
  - the public routes that list categories, resolve a collection, and
    choose the products of a listing, a detail page and its related
    products;
  - the storefront collection page's filters and the product page's
    quantity stepper.

JavaScript values are a datatype (`Js.Value`) with JavaScript's truthiness.
PHP request values reuse it, with PHP's truthiness and Laravel's `filled`
test (`Php`). Page and hook state that the source updates in place (React
state, refs, the session, the tables) is a Dafny `class` whose methods
state the new state. Pure computations are functions, and lemmas state
what they promise.

Some library calls are parameters of the model, not part of it:
`Str::slug`, `json_decode`, `parseFloat`, the URL and JSON syntax tests,
and `JSON.stringify` (a form value `Encoded(v)` stands for its text).

Behaviour as written, where it differs from the description of the system:

- The slug pipeline ends in `.trim('-')`. JavaScript's `trim` ignores its
  argument, so hyphens at either end of a slug stay
  (`Slugs.SlugKeepsLeadingHyphen`).
- `category.is_active || true` makes the category edit form start as
  active even for an inactive category (`CategoryEdit.InitialActiveAlwaysTrue`).
- The product controller prepares `gallery_images`, `materials`,
  `colors_available`, `is_customizable` and `customization_options`. None
  of these is in Product's `$fillable`, so a save never writes them
  (`ProductController.FillDropsSpec`).
- `update` syncs the tags twice with the same ids. The result is that of
  one sync.
- The validation accepts the status `out_of_stock`, while the products
  migration's enum lists `archived` instead. The model follows the
  controller.
- ProductDetail.jsx:10 reads `product.available_colors`, while the
  products table's column is `colors`. The page's colours are therefore
  always `[]` and the colour picker never shows. The model takes the
  colours as an argument of `ProductDetailPage`'s constructor, so it
  describes the picker as it would behave with colours supplied.
- CollectionListing.jsx:62 reads `product.color_options`, while the
  products table's column is `colors`. Every transformed product therefore
  gets the fallback colours `['Mixed']`, and the colour facet filters on
  that fallback.
- CollectionListing.jsx:63 takes the size from `dimensions`, a JSON column
  holding lengths, not a size name. A product with dimensions never
  matches a size chosen from a list of names; only the `'Standard'`
  fallback of a product without dimensions can match.

## Model

| member | source | states |
|---|---|---|
| Forms.FormState.SetData | resources/js/Pages/Admin/Products/Create.jsx:18 | `setData(key, value)` replaces one field and keeps every other field |
| Slugs.SlugShape | resources/js/Pages/Admin/Products/Create.jsx:34-39 | the derived slug holds only a-z, 0-9 and '-', and never "--" |
| Slugs.SlugIdempotent | resources/js/Pages/Admin/Categories/Edit.jsx:39-44 | deriving a slug from a derived slug gives it back unchanged |
| Slugs.SlugKeepsLeadingHyphen | resources/js/Pages/Admin/Categories/Edit.jsx:44 | a name starting with a space or '-' gives a slug starting with '-', because `trim('-')` trims only whitespace |
| ArtistCreate.Take | resources/js/Pages/Admin/Artists/Create.jsx:51 | `substring(0, n)` is the first n characters of a longer string, and the whole string when it is short enough |
| ArtistCreate.UsernameShape | resources/js/Pages/Admin/Artists/Create.jsx:47-51 | the username has at most 20 characters, all from a-z, 0-9 and '_', with no "__" |
| ArtistCreate.NoSpaceNoUnderscore | resources/js/Pages/Admin/Artists/Create.jsx:49-50 | a name without spaces gives a username without '_' |
| ArtistCreate.InitialArtistActive | resources/js/Pages/Admin/Artists/Create.jsx:9-20 | a new artist form starts active, with an empty username |
| ArtistCreate.ArtistForm.constructor | resources/js/Pages/Admin/Artists/Create.jsx:9-20 | the form starts from the artist defaults |
| ArtistCreate.ArtistForm.HandleNameChange | resources/js/Pages/Admin/Artists/Create.jsx:42-54 | the full name is stored and the username is overwritten with the one derived from it; nothing else changes |
| CategoryEdit.InitialActiveAlwaysTrue | resources/js/Pages/Admin/Categories/Edit.jsx:14 | `is_active` starts truthy for every category, as `true` when the stored value is falsy |
| CategoryEdit.InitialFallbacks | resources/js/Pages/Admin/Categories/Edit.jsx:9-16 | a falsy sort order starts as 0 and a set one is kept; a falsy text field starts as '' |
| CategoryEdit.CategoryEditForm.constructor | resources/js/Pages/Admin/Categories/Edit.jsx:9-16 | the form starts from `category.field \|\| default` |
| CategoryEdit.CategoryEditForm.HandleNameChange | resources/js/Pages/Admin/Categories/Edit.jsx:34-47 | the name is stored and the slug replaced by the derived one; nothing else changes |
| ProductConstants.InitialDataDefaults | resources/js/constants/productConstants.js:44-73 | a new product is a draft with no tags, not customisable, with empty list fields and '' in every text field |
| ProductConstants.SameFieldKeys | resources/js/constants/productConstants.js:107-136 | the new-product data and the edit data of any product have exactly the same fields |
| ProductConstants.EveryFieldLabelled | resources/js/constants/productConstants.js:76-104 | every form field except `is_customizable` has a label |
| ProductConstants.EditTags | resources/js/constants/productConstants.js:121 | the edit form's tags are the ids of the product's tags, in order, or [] with no tags |
| ProductConstants.EditStatusFallback | resources/js/constants/productConstants.js:125 | a falsy status becomes 'draft'; a set one is kept |
| ProductConstants.EditCustomizableFallback | resources/js/constants/productConstants.js:123 | a falsy `is_customizable` becomes false |
| ProductConstants.EditStockFallback | resources/js/constants/productConstants.js:119 | a stock of 0 becomes '', and a truthy stock is kept |
| ProductConstants.EditJsonFields | resources/js/constants/productConstants.js:115-118 | the JSON fields are shown as JSON text when set and as '' otherwise |
| ProductConstants.EditListFields | resources/js/constants/productConstants.js:127-131 | theme, ideal_for and inclusions default to [] |
| ProductConstants.EditSetFields | resources/js/constants/productConstants.js:107-136 | any other set field is kept as it is |
| ProductConstants.EditOfBlankIsInitial | resources/js/constants/productConstants.js:44-73 | editing a product with no field set starts from exactly the new-product data |
| FormDirty.DiffersIff | resources/js/Components/Form/hooks/useFormDirty.js:27-41 | the data differ exactly when they disagree on some key that is not ignored |
| FormDirty.IgnoredChangeKeepsDiffers | resources/js/Components/Form/hooks/useFormDirty.js:29-35 | changing an ignored field never changes whether the form is dirty |
| FormDirty.DiffersWithoutIgnored | resources/js/Components/Form/hooks/useFormDirty.js:40 | with nothing ignored, the form is dirty exactly when its data differ from the baseline |
| FormDirty.Tracker.constructor | resources/js/Components/Form/hooks/useFormDirty.js:11-12 | no baseline, and not dirty |
| FormDirty.Tracker.FilterFields | resources/js/Components/Form/hooks/useFormDirty.js:29-35 | the copy without every ignored field |
| FormDirty.Tracker.CaptureBaseline | resources/js/Components/Form/hooks/useFormDirty.js:15-21 | the original data becomes the baseline; otherwise the form data does, but only when there is no baseline yet |
| FormDirty.Tracker.Recompute | resources/js/Components/Form/hooks/useFormDirty.js:24-45 | with a baseline and data, dirty is exactly "differs outside the ignored fields"; otherwise nothing changes |
| FormDirty.Tracker.ResetDirty | resources/js/Components/Form/hooks/useFormDirty.js:47-52 | the current data become the baseline and the form is clean; without data nothing changes |
| FormDirty.Tracker.MarkClean | resources/js/Components/Form/hooks/useFormDirty.js:54-56 | clean, with the baseline kept |
| FormDirty.ResetThenRecompute | resources/js/Components/Form/hooks/useFormDirty.js:24-52 | after resetDirty, recomputing on the same data finds the form clean |
| FormErrors.HasErrorsIff | resources/js/Components/Form/hooks/useFormErrors.js:7-8 | there are errors exactly when some field has one |
| FormErrors.ErrorCountUpdate | resources/js/Components/Form/hooks/useFormErrors.js:7 | an error on a new field adds one to the count; a new message for a field already in error does not |
| FormErrors.GetFieldLabelChoice | resources/js/Components/Form/hooks/useFormErrors.js:63-65 | a non-empty custom label wins, then the default label, then the field name; a non-empty field never gets '' |
| FormErrors.DefaultLabelExamples | resources/js/Components/Form/hooks/useFormErrors.js:33-60 | `slug` reads "URL Slug", `is_active` reads "Active Status", and a field without a default label reads as its name |
| FormErrors.ProductFormLabels | resources/js/constants/productConstants.js:76-104 | on the product forms every labelled field shows the product label |
| FormErrors.IsCustomizableUnlabelled | resources/js/Components/Form/hooks/useFormErrors.js:63-65 | `is_customizable` has neither label, so its errors show the raw field name |
| ProductCreate.CreatePage.constructor | resources/js/Pages/Admin/Products/Create.jsx:18-23 | the form and the baseline both start from the new-product data, and the page is clean |
| ProductCreate.CreatePage.HandleNameChange | resources/js/Pages/Admin/Products/Create.jsx:29-42 | name and derived slug are set, the baseline stays, and the page is dirty exactly when the data left the new-product data |
| ProductCreate.NameMakesDirty | resources/js/Pages/Admin/Products/Create.jsx:22-23 | typing a non-empty name makes a new product's form dirty |
| ProductEdit.EditPage.constructor | resources/js/Pages/Admin/Products/Edit.jsx:19-24 | the form and the baseline both start from the product's edit data, and the page is clean |
| ProductEdit.EditPage.HandleNameChange | resources/js/Pages/Admin/Products/Edit.jsx:30-43 | name and derived slug are set; dirty exactly when the data differ from the starting data |
| ProductEdit.EditPage.UpdateFinished | resources/js/Pages/Admin/Products/Edit.jsx:53-58 | a successful update marks the form clean; a failed one leaves it as it was |
| AdminFilters.FilteredData | resources/js/Hooks/useAdminFilters.js:23-53 | the loop over the filter keys gives exactly the items that pass the search and every narrowing filter |
| AdminFilters.FilteredIsSubsequence | resources/js/Hooks/useAdminFilters.js:23-53 | the filtered list is an order-preserving subsequence, and an item is in it exactly when it matches |
| AdminFilters.EmptyFiltersKeepAll | resources/js/Hooks/useAdminFilters.js:27-50 | with every filter value '', nothing is removed |
| AdminFilters.AddedFilterNarrows | resources/js/Hooks/useAdminFilters.js:41-50 | setting one more exact filter filters the old result further by that filter |
| AdminFilters.ActiveFiltersCountIsSetSize | resources/js/Hooks/useAdminFilters.js:55-57 | the count is the number of filters whose value is not '' |
| AdminFilters.ClearedCountIsZero | resources/js/Hooks/useAdminFilters.js:55-57 | with every value '', the count is 0 |
| AdminFilters.FilterHook.constructor | resources/js/Hooks/useAdminFilters.js:4-7 | the filters are `{ search: '', ...initialFilters }`, with the search first |
| AdminFilters.FilterHook.UpdateFilter | resources/js/Hooks/useAdminFilters.js:9-14 | only the named filter changes; a new key goes last |
| AdminFilters.FilterHook.ClearAllFilters | resources/js/Hooks/useAdminFilters.js:16-21 | every filter keeps its place and becomes '' |
| AdminFilters.ClearedFiltersShowAll | resources/js/Hooks/useAdminFilters.js:16-57 | after clearing, every item is shown and no filter counts as active |
| AdminFilters.GetNestedPlain | resources/js/Hooks/useAdminFilters.js:124-126 | a path without dots reads the plain field |
| AdminFilters.GetNestedCompose | resources/js/Hooks/useAdminFilters.js:124-126 | `a.b` reads b of the value at a |
| AdminFilters.GetNestedFromNullish | resources/js/Hooks/useAdminFilters.js:124-126 | any path read from null or undefined gives undefined |
| AdminFilters.RowLessStrictOrder | resources/js/Hooks/useAdminFilters.js:84-92 | the comparator is a strict order in either direction |
| AdminFilters.SortedDataSpec | resources/js/Hooks/useAdminFilters.js:80-95 | the sorted rows are a permutation of the filtered ones, ordered by the key; without a key they are unchanged |
| AdminFilters.TableState.constructor | resources/js/Hooks/useAdminFilters.js:78 | no sort key, ascending |
| AdminFilters.TableState.HandleSort | resources/js/Hooks/useAdminFilters.js:97-102 | the key is set; it becomes descending exactly when it was already sorted ascending by that key |
| AdminFilters.AdminForm.constructor | resources/js/Hooks/useAdminFilters.js:128-130 | the initial data and no errors |
| AdminFilters.AdminForm.UpdateData | resources/js/Hooks/useAdminFilters.js:133-146 | the field is set, and a truthy error on it is cleared to null |
| CategoriesIndex.FilteredDataSpec | resources/js/Pages/Admin/Categories/Index.jsx:41-67 | the two stages keep exactly the categories passing both filters, in order |
| CategoriesIndex.StatusFilterSpec | resources/js/Pages/Admin/Categories/Index.jsx:55-63 | 'active' keeps is_active 1 or true, 'inactive' keeps 0 or false, and any other status keeps everything |
| CategoriesIndex.ListedPassesStatus | resources/js/Pages/Admin/Categories/Index.jsx:55-63 | every listed category passes the status filter |
| CategoriesIndex.ActiveAndInactiveDisjoint | resources/js/Pages/Admin/Categories/Index.jsx:57-61 | no category is listed under both 'active' and 'inactive' |
| CategoriesIndex.SearchSpec | resources/js/Pages/Admin/Categories/Index.jsx:46-52 | a search keeps exactly the categories whose name or slug contains it, ignoring case; one with neither field never matches |
| CategoriesIndex.ActiveFiltersCountSpec | resources/js/Pages/Admin/Categories/Index.jsx:70-72 | the count is the number of the two filters that are set |
| CategoriesIndex.DeleteTargetSpec | resources/js/Pages/Admin/Categories/Index.jsx:148-151 | no selection sends no request; a selection deletes its id |
| ProductsIndex.ApplyStage | resources/js/Pages/Admin/Products/Index.jsx:19-42 | each step narrows the list by one more set filter |
| ProductsIndex.ApplyFilters | resources/js/Pages/Admin/Products/Index.jsx:19-42 | the four steps give exactly the products passing every set filter |
| ProductsIndex.ProductsIndexPage.constructor | resources/js/Pages/Admin/Products/Index.jsx:10-16 | no filters, and every product shown |
| ProductsIndex.ProductsIndexPage.FilterEffect | resources/js/Pages/Admin/Products/Index.jsx:19-42 | the list becomes the products passing every set filter |
| ProductsIndex.ProductsIndexPage.ClearAllFilters | resources/js/Pages/Admin/Products/Index.jsx:44-51 | all four filters become '' |
| ProductsIndex.FilteredProductsSpec | resources/js/Pages/Admin/Products/Index.jsx:19-42 | an order-preserving subsequence holding exactly the matching products; no filters keep all |
| ProductsIndex.NonNumericCategoryHidesAll | resources/js/Pages/Admin/Products/Index.jsx:29-31 | a category filter that parseInt reads as NaN hides every product |
| ProductsIndex.ActiveFiltersCountSpec | resources/js/Pages/Admin/Products/Index.jsx:53 | at most 4; 0 exactly when no filter is set; 4 exactly when all are |
| ProductsIndex.FormatStatusChars | resources/js/Pages/Admin/Products/Index.jsx:65-69 | split, capitalise and join equals the character-by-character description |
| ProductsIndex.FormatStatusSpec | resources/js/Pages/Admin/Products/Index.jsx:65-69 | the label keeps the length; each '_' becomes a space, and the first character and every character after a '_' are upper-cased |
| ProductsIndex.TagsCellSpec | resources/js/Pages/Admin/Products/Index.jsx:347-362 | "No tags" for no tags; otherwise the first min(3, n) tags, in order, with a "+more" count exactly when there are more than three |
| TagsIndex.FilteredTagsSpec | resources/js/Pages/Admin/Tags/Index.jsx:17-28 | an order-preserving subsequence of matching tags; the status is ignored; an empty search keeps all |
| TagsIndex.TagsIndexPage.constructor | resources/js/Pages/Admin/Tags/Index.jsx:10-14 | empty filters, and every tag shown |
| TagsIndex.TagsIndexPage.SetSearch | resources/js/Pages/Admin/Tags/Index.jsx:104 | only the search changes |
| TagsIndex.TagsIndexPage.FilterEffect | resources/js/Pages/Admin/Tags/Index.jsx:17-28 | the list becomes the tags matching the search |
| TagsIndex.TagsIndexPage.ClearAllFilters | resources/js/Pages/Admin/Tags/Index.jsx:30-35 | search and status become '' |
| TagsIndex.ClearThenFilter | resources/js/Pages/Admin/Tags/Index.jsx:17-35 | clearing, then running the effect, shows every tag |
| TagsIndex.AverageUsageSpec | resources/js/Pages/Admin/Tags/Index.jsx:43-45 | the average is 0 with no tags, and average times count is the total usage |
| TagsIndex.UnusedTagsSpec | resources/js/Pages/Admin/Tags/Index.jsx:43-46 | unused ≤ total; the total usage is 0 exactly when every tag is unused |
| TagsIndex.GreyBadgesAreUnused | resources/js/Pages/Admin/Tags/Index.jsx:197-203 | the grey badges are exactly the unused tags |
| TagsIndex.UsageBadgeSpec | resources/js/Pages/Admin/Tags/Index.jsx:197-203 | grey exactly for 0, green exactly above 10, orange otherwise |
| TagsInput.FindById | resources/js/Components/TagsInput.jsx:24 | the found tag is the first available tag with the id; none means no available tag has it |
| TagsInput.SelectedTags | resources/js/Components/TagsInput.jsx:19-26 | one shown tag per entry |
| TagsInput.ResolveTagSpec | resources/js/Components/TagsInput.jsx:19-26 | an unknown id resolves to the placeholder `{ id, name: 'Tag id', color: '#gray' }`, and a known id to the first available tag that has it; the id is always kept |
| TagsInput.PlaceholderName | resources/js/Components/TagsInput.jsx:24 | the placeholder's name is "Tag " followed by the id |
| TagsInput.SuggestionsSpec | resources/js/Components/TagsInput.jsx:29-42 | suggestions are never selected; a blank input gives none; otherwise exactly the unselected tags whose name contains the input, ignoring case |
| TagsInput.AddedIdsSpec | resources/js/Components/TagsInput.jsx:56-61 | a new tag's id is appended; a selected one or no tag emits nothing; distinct ids stay distinct |
| TagsInput.RemovedIdsSpec | resources/js/Components/TagsInput.jsx:69 | filtering the tags and then mapping to ids equals filtering the ids |
| TagsInput.RemoveSpec | resources/js/Components/TagsInput.jsx:67-71 | the removed id is gone, and every other id stays, in order |
| TagsInput.AddThenRemove | resources/js/Components/TagsInput.jsx:56-71 | adding a new tag and removing it gives back the ids |
| TagsInput.TagsInputState.constructor | resources/js/Components/TagsInput.jsx:12-14 | empty input, no suggestions shown |
| TagsInput.TagsInputState.SetInput | resources/js/Components/TagsInput.jsx:118 | only the input text changes |
| TagsInput.TagsInputState.SuggestionEffect | resources/js/Components/TagsInput.jsx:29-42 | the list is recomputed and shown exactly when it is non-empty |
| TagsInput.TagsInputState.Focus | resources/js/Components/TagsInput.jsx:120-124 | the list is shown again when the input is not blank and there are suggestions |
| TagsInput.TagsInputState.AddTag | resources/js/Components/TagsInput.jsx:56-65 | emits the added ids, if any, then clears the input and hides the list |
| TagsInput.TagsInputState.HandleKeyDown | resources/js/Components/TagsInput.jsx:73-85 | Enter adds the first suggestion; Backspace on an empty input removes the last tag; Escape hides and clears; other keys do nothing |
| TagsInput.EnterNeverDuplicates | resources/js/Components/TagsInput.jsx:73-78 | Enter never emits an id that was already selected |
| CollectionListing.TransformAll | resources/js/Pages/CollectionListing.jsx:53-68 | one listing product per stored product |
| CollectionListing.TransformSpec | resources/js/Pages/CollectionListing.jsx:53-68 | in stock exactly when the stock is positive and the status is exactly 'active'; the colours come from `color_options` or default to ['Mixed']; size and material are never falsy |
| CollectionListing.FilteredProductsSpec | resources/js/Pages/CollectionListing.jsx:78-112 | an order-preserving subsequence of exactly the products passing all five checks |
| CollectionListing.PriceRangeInclusive | resources/js/Pages/CollectionListing.jsx:80 | both ends of the price range are inclusive |
| CollectionListing.StockFilterSpec | resources/js/Pages/CollectionListing.jsx:85-91 | both or neither box impose nothing; one box keeps only in-stock or only out-of-stock products |
| CollectionListing.EmptyFacetsImposeNothing | resources/js/Pages/CollectionListing.jsx:94-109 | with no facet chosen, only price and stock decide |
| CollectionListing.MoreColorsShowMore | resources/js/Pages/CollectionListing.jsx:94-99 | choosing one more colour never hides a product |
| CollectionListing.ToggleSpec | resources/js/Pages/CollectionListing.jsx:114-121 | after a toggle the value is chosen exactly when it was not; others are unchanged; distinct lists stay distinct |
| CollectionListing.ToggleTwice | resources/js/Pages/CollectionListing.jsx:114-121 | toggling a new value twice gives back the list; toggling a chosen one twice moves it to the end |
| CollectionListing.PriceInputSpec | resources/js/Pages/CollectionListing.jsx:255-263 | NaN or 0 gives the fallback 0 or 100; any other number is taken |
| CollectionListing.CollectionListingPage.constructor | resources/js/Pages/CollectionListing.jsx:5-12 | the initial filters |
| CollectionListing.CollectionListingPage.ToggleFilter | resources/js/Pages/CollectionListing.jsx:114-121 | only the named facet list is toggled |
| CollectionListing.CollectionListingPage.UpdatePriceRange | resources/js/Pages/CollectionListing.jsx:123-128 | only the range changes |
| CollectionListing.CollectionListingPage.TypeMinPrice | resources/js/Pages/CollectionListing.jsx:255 | the minimum becomes the typed price or 0 |
| CollectionListing.CollectionListingPage.TypeMaxPrice | resources/js/Pages/CollectionListing.jsx:263 | the maximum becomes the typed price or 100 |
| CollectionListing.CollectionListingPage.ToggleStockFilter | resources/js/Pages/CollectionListing.jsx:130-135 | one box flips, and the other stays |
| CollectionListing.CollectionListingPage.ClearAllFilters | resources/js/Pages/CollectionListing.jsx:137-146 | back to the initial filters |
| CollectionListing.StockToggleTwice | resources/js/Pages/CollectionListing.jsx:130-135 | flipping a box twice restores the filters |
| CollectionListing.InitialFiltersSpec | resources/js/Pages/CollectionListing.jsx:5-12 | the initial filters show the in-stock products priced from 0 to 100 |
| ProductDetail.TypedQuantitySpec | resources/js/Pages/ProductDetail.jsx:233 | any typed number but 0 is taken as it is, unclamped; 0 and non-numbers give 1 |
| ProductDetail.ProductDetailPage.constructor | resources/js/Pages/ProductDetail.jsx:6-7 | quantity 1, no colour chosen |
| ProductDetail.ProductDetailPage.Decrement | resources/js/Pages/ProductDetail.jsx:223 | the quantity drops by one but never below 1 |
| ProductDetail.ProductDetailPage.Increment | resources/js/Pages/ProductDetail.jsx:237 | the quantity rises by one but never above the stock |
| ProductDetail.ProductDetailPage.TypeQuantity | resources/js/Pages/ProductDetail.jsx:233 | the quantity becomes the typed number or 1 |
| ProductDetail.ProductDetailPage.SelectColor | resources/js/Pages/ProductDetail.jsx:201 | the colour is chosen, and the quantity stays |
| ProductDetail.ProductDetailPage.DisplayedColor | resources/js/Pages/ProductDetail.jsx:196 | the chosen colour, or the first colour while none is chosen; `HighlightedIsDisplayed` proves that the highlighted button is this colour |
| ProductDetail.StepperKeepsRange | resources/js/Pages/ProductDetail.jsx:223-237 | with a positive stock, the buttons keep the quantity between 1 and the stock |
| ProductDetail.HighlightedIsDisplayed | resources/js/Pages/ProductDetail.jsx:196-203 | the highlighted button is exactly the colour the heading shows |
| TagModel.CreatingSlugSpec | app/Models/Tag.php:39-43 | a slug PHP does not count as empty survives creation; an empty one, '0' included, becomes `Str::slug(name)` |
| TagModel.UpdatingSlugSpec | app/Models/Tag.php:45-49 | the slug is re-derived only when the name changed and the slug is empty |
| TagModel.Tag.constructor | app/Models/Tag.php:39-43 | a new tag, with no original name |
| TagModel.Tag.Loaded | app/Models/Tag.php:45-49 | a stored tag, whose loaded name is its original name |
| TagModel.Tag.Creating | app/Models/Tag.php:39-43 | the creating hook sets the slug as CreatingSlug says |
| TagModel.Tag.Updating | app/Models/Tag.php:45-49 | the updating hook sets the slug as UpdatingSlug says |
| TagModel.RenameKeepsSlug | app/Models/Tag.php:45-49 | renaming a stored tag that has a slug keeps the slug |
| TagModel.ScopeActiveSpec | app/Models/Tag.php:55-58 | exactly the active tags, in table order |
| TagModel.MoreUsedStrictOrder | app/Models/Tag.php:65 | ordering by usage, descending, is a strict order |
| TagModel.ScopePopularSpec | app/Models/Tag.php:63-66 | at most `limit` tags (all for a negative limit), drawn from the table, most used first, and none left out is more used than one given |
| TagModel.DefaultPopularAtMostTen | app/Models/Tag.php:63 | the default limit gives at most ten tags |
| TagSeeder.NewTagSlug | database/seeders/TagSeeder.php:68-77 | a created tag's slug is `Str::slug` of its name |
| TagSeeder.RunAllSpec | database/seeders/TagSeeder.php:67-84 | the loop only appends, and afterwards every listed name is present |
| TagSeeder.RunAllIdle | database/seeders/TagSeeder.php:67-84 | when every listed name is present, the loop changes nothing |
| TagSeeder.RunAllIdempotent | database/seeders/TagSeeder.php:67-84 | seeding twice leaves the same table as seeding once |
| TagSeeder.TagTable.FirstOrCreate | database/seeders/TagSeeder.php:68-79 | inserts a new row exactly when no row has the name, and reports whether it did |
| TagSeeder.SeedLogSpec | database/seeders/TagSeeder.php:79-83 | one line per entry: "Created tag" exactly for the names not yet present |
| TagSeeder.SeedAll | database/seeders/TagSeeder.php:67-84 | the loop leaves the table RunAll describes and logs SeedLog |
| TagSeeder.Run | database/seeders/TagSeeder.php:16-86 | the listed tags are seeded, and the final line is the success message |
| ProductController.FieldFailure | app/Http/Controllers/Admin/ProductController.php:63-83 | an absent field and a string that trims to '' are reported exactly when the field is required; a null field is not reported when it is nullable; any other value is reported exactly when one of the field's rules fails |
| ProductController.StatusRuleSpec | app/Http/Controllers/Admin/ProductController.php:82 | the status passes exactly when it is one of the four statuses |
| ProductController.PriceRuleSpec | app/Http/Controllers/Admin/ProductController.php:67 | the price passes exactly when it is a number that is not negative |
| ProductController.StockRuleSpec | app/Http/Controllers/Admin/ProductController.php:75 | the stock passes exactly when it is absent, null, a string that trims to '', or a non-negative integer |
| ProductController.BlankOptionalPasses | app/Http/Controllers/Admin/ProductController.php:63-83 | an optional field sent as a blank string is not checked against its other rules, so `tags: ''` and `featured_image: ''` pass |
| ProductController.TagRuleSpec | app/Http/Controllers/Admin/ProductController.php:77-78 | an array or object of tags passes exactly when every value is the id of a stored tag or a string that trims to '' |
| ProductController.ObjectTagsPass | app/Http/Controllers/Admin/ProductController.php:77-78 | a JSON object sent as `tags`, such as `{"a": 5}` with tag 5 stored, passes the `array` rule and `tags.*`, and its values are the tags asked for |
| ProductController.SlugRuleSpec | app/Http/Controllers/Admin/ProductController.php:65 | a passing slug is a string of 1 to 255 characters that no other product holds |
| ProductController.AttributesSpec | app/Http/Controllers/Admin/ProductController.php:85-103 | a missing stock becomes 0 and a missing `is_customizable` false; a falsy JSON field becomes null and a truthy one is decoded |
| ProductController.ValidatedAttributes | app/Http/Controllers/Admin/ProductController.php:63-103 | a validated request prepares one of the four statuses, a non-negative price, and a non-negative stock unless the stock was sent blank, in which case the blank string is kept |
| ProductController.Fill | app/Models/Product.php:13-54 | mass assignment keeps exactly the fillable attributes, unchanged |
| ProductController.FillDropsSpec | app/Models/Product.php:13-54 | the five prepared attributes that are not fillable are never written |
| ProductController.FillKeepsSpec | app/Http/Controllers/Admin/ProductController.php:85-103 | the fillable attributes are written as prepared |
| ProductController.SubmittedTagsSpec | app/Http/Controllers/Admin/ProductController.php:105-108 | for a validated request, the tags asked for are exactly the stored ids among the values of the array or object, or none without one |
| ProductController.ProductStore.constructor | app/Models/Product.php:9-11 | an empty table and pivot |
| ProductController.ProductStore.Sync | app/Http/Controllers/Admin/ProductController.php:107 | the product's tags become exactly the ids, and no other product's tags change |
| ProductController.ProductStore.Store | app/Http/Controllers/Admin/ProductController.php:61-112 | a failed validation changes nothing; otherwise a new row holds the fillable attributes, and the tags are synced only for an array or object (a JSON object decodes to a PHP array) |
| ProductController.ProductStore.Update | app/Http/Controllers/Admin/ProductController.php:157-216 | a missing product is not found and a failed validation changes nothing; otherwise the fillable attributes overwrite the row and the tags become the submitted ones, none when `tags` is neither an array nor an object |
| ProductController.UpdateReplacesTags | app/Http/Controllers/Admin/ProductController.php:201-213 | after an update the tags are stored tag ids: exactly the values of the array or object, or none without one |
| AuthController.CredentialsAreFilled | app/Http/Controllers/Admin/AuthController.php:18-24 | matching credentials always pass the required rules |
| AuthController.Session.constructor | app/Http/Controllers/Admin/AuthController.php:25 | the session holds the given data |
| AuthController.Session.Login | app/Http/Controllers/Admin/AuthController.php:16-32 | missing fields fail validation; the fixed pair sets the flag and goes to the dashboard; anything else goes back with the credentials error; the session is unchanged on failure |
| AuthController.Session.Logout | app/Http/Controllers/Admin/AuthController.php:34-38 | the flag is forgotten and the login page follows |
| AuthController.LoginSpec | app/Http/Controllers/Admin/AuthController.php:24-31 | a login succeeds exactly with the fixed credentials, and logs the session in; otherwise the session is untouched |
| AuthController.LogoutSpec | app/Http/Controllers/Admin/AuthController.php:36 | after logout the session is not logged in, and everything else is kept |
| PublicRoutes.ByPositionStrictOrder | routes/web.php:10-11 | ordering by sort order, then name, is a strict order |
| PublicRoutes.ListedCategoriesSpec | routes/web.php:9-12 | exactly the active categories, ordered by sort order then name |
| PublicRoutes.CollectionsPageSpec | routes/web.php:23-28 | the listed categories in order, each with the number of its products that are not deleted |
| PublicRoutes.ResolveCollectionSpec | routes/web.php:39-45 | none (a 404) exactly when no category matches; otherwise the first match in table order |
| PublicRoutes.SlugAlwaysResolves | routes/web.php:39-41 | a category whose slug is the segment always gives a result, active or not |
| PublicRoutes.ListingProductsSpec | routes/web.php:48-55 | exactly the published products of the category that are not deleted, newest first |
| PublicRoutes.ProductDetailSpec | routes/web.php:67-74 | a published product with the id that is not deleted, or none (a 404) exactly when there is none |
| PublicRoutes.RelatedProductsSpec | routes/web.php:77-85 | at most four, each published, not deleted, of the same category and not the product itself |

## Left out

- Rendering, CSS classes, icons, modals, scrolling, focus handling, the
  outside-click listener and Inertia requests are not modelled. Only the
  state those pages compute is.
- Time and randomness (the random review count, dates) are left out.
- Strings are sequences of characters. Upper and lower case are mapped
  for ASCII letters only, and there is no Unicode case folding.
- `JSON.stringify`, `parseFloat`, `json_decode`, `Str::slug`, and the URL
  and JSON syntax checks are parameters of the model. Their own behaviour
  is not part of this model.
- JavaScript comparisons between values of different kinds (a number with
  a string) are taken as "not less". JavaScript would coerce them.
- A search that reads a field that is not text counts as no match. In
  JavaScript, `toLowerCase` on such a value would throw.
- The exact-value filters do the same: `item[key]?.toLowerCase()` in
  useAdminFilters.js:47 and `product.status.toLowerCase()` in the products
  page (Products/Index.jsx:38) throw on a number, and the latter also on
  a null status. The model counts these items as not matching.
- Numbers are integers (`Js.Num(int)`). A decimal such as a price or a
  weight of 19.99 cannot be written, so the `numeric|min:0` rules on price
  and weight (ProductController.php:67,79) are modelled on integers only.
- `Js.Member` reads properties of objects only. On a string or an array it
  gives `undefined`, so a nested path such as `tags.0.name` or
  `name.length` in `getNestedValue` (useAdminFilters.js:124-126) reads as
  `undefined` where JavaScript would find a value.
- `product.tags.map(tag => tag.id)` in productConstants.js:121 throws on a
  null element of `tags`; the model's `ProductConstants.TagIds` gives
  `undefined` for it.
- Object identity (`===` on objects) is compared as value equality.
- ProductsIndex.TagsCellSpec: any `tags` value that is not an array shows
  "No tags". A non-empty string would pass `product.tags.length > 0` in
  Products/Index.jsx:347, and the `.map` after `.slice(0, 3)` would then
  throw.
- FormDirty.Differs compares the form data as maps, while useFormDirty.js:40
  compares `JSON.stringify` texts. The texts can differ in ways the maps
  do not: the same entries in another insertion order give different
  texts, members whose value is `undefined` are dropped from the text, and
  an encoded JSON value (`Encoded(v)`) has the same text as the string of
  that text. The baseline copy made with `JSON.parse(JSON.stringify(...))`
  is a value here, so sharing with the live data is not modelled.
- ProductEdit.EditPage.UpdateFinished: after `markClean()` the page
  re-renders, and useFormDirty.js:15-45 runs both effects again, because
  `getEditProductData(product)` and the default `ignoreFields = []` are
  new values on every render. That recomputes `isDirty` at once. A
  successful update redirects away from the page, so the model states
  only the clean state the handler sets and not that re-run.
- ProductController.SubmittedTagsSpec: an element of `tags` that trims to ''
  passes validation and reaches `sync`, which hands it to the database;
  the model's tag set keeps only numeric ids, so such an element adds
  no tag.
- A template string of an array or object is a fixed placeholder text.
- TagsInput.SelectedTags: null entries in `tags` are excluded by its
  precondition; the source would throw on them.
- TagsIndex.AverageUsage: `toFixed(1)` rounding and the text it produces
  are not modelled; the average is the exact quotient.
- TagsIndex.TotalUsage: usage counts are assumed to be integers, which is
  what the server sends.
- ProductDetail.ProductDetailPage.Increment: the stock-0 case is stated
  only for a quantity that is not negative.
- ProductDetail.HighlightedIsDisplayed: a colour named '' is excluded; it
  would be highlighted while no colour is chosen.
- SQL ordering: ties keep table order, which is one order the database
  may return. Names are compared by code point, not by the collation.
  The `'active'`/`'Active'` match ignores collation.
- The LIKE pattern in collection resolution treats `%` and `_` in the
  segment literally, and it ignores case for ASCII letters only.
- Tag scopes: the query builder ignores a negative limit, and this is
  modelled as no limit.
- Laravel's request middleware (trimming strings, turning empty strings
  into null) is not modelled. Request values are as they reach the
  controller.
- Validation reads numbers and ids as JSON numbers. Numeric strings are
  not taken as numbers, and Laravel's error messages and their order are
  reduced to the set of failing field names, with "tags.*" standing for
  any element.
- Product's attribute casts and the database's column defaults are not
  modelled.
- The controller's index, create, edit, show and destroy actions, and the
  admin middleware, are not part of this model.
- The seeder's console output is modelled as a list of logged lines.
- The status values the products migration declares (`archived`, with no
  `out_of_stock`) are not enforced. The model follows the controller's
  validation.
