# DukaanDost product list, in Dafny

DukaanDost is an Android shop app. Its home screen shows a catalog of
products. The user narrows it with a category filter, a search term and a
sort option. This project models the logic behind that screen and proves
its properties:

- **The query helpers of `ProductViewModel`** (`product_queries.dfy`).
  - The category filter keeps the products whose category equals one of
    the selected entries, or everything when nothing is selected.
  - The search keeps the products whose lowercased title or lowercased
    category contains the term, or everything when the term is blank.
  - The sort orders by rating (descending) or by price (either
    direction), stably, or leaves the list as it is for any other option
    string.
  - Filter and search are each applied to the base list. The two results
    are intersected the way Kotlin's `intersect` does it (`Intersection`):
    a linked set built from the first list, then `retainAll`. The
    intersection is then sorted (`Reconcile`).
- **The stable sort** (`stable_sort.dfy`). Kotlin's `sortedBy` and
  `sortedByDescending` are modelled as an insertion sort over a
  product's rate or price. Stability is stated as "the products that
  share a key value keep their relative order".
- **The view model itself** (`view_model.dfy`). The class
  `ProductViewModel` holds:
  - the saved-state handle, as a map from key to value, with getters that
    fall back to a default when a key is missing;
  - the base product and category lists;
  - the published `ProductCategoryDataModel`.

  Its constructor models `init`. Its methods model the three setters,
  `clearFiltersAndRefresh` and `refreshProductList`. Kotlin's default
  arguments of `refreshProductList` become `Option` parameters: `None`
  keeps the stored value.
- **The string helpers** `capitalizeFirstLetter` and
  `appendCurrencyCode` (`utils.dfy`). They use case mapping and
  whitespace from `text.dfy`.
- **The two field-for-field mappers** from `ProductResponse` to
  `ProductModel` (`domain_mapper.dfy`, `model_mapper.dfy`).
- **The unit test's catalog** (`scenarios.dfy`): the four products of
  `ProductViewModelUnitTest` and what the query functions give on them.

Search is case-sensitive on the term's side. A reader might expect
case-insensitive search, but only the product's title and category are
lowercased (ProductViewModel.kt:176-177); the term is used as given. So a
term with an uppercase letter matches no product.
`SearchWithUppercaseFindsNothing` and `CapitalisedSearchShowsNothing`
state the consequence.

## Model

| member | source | states |
|---|---|---|
| ProductQueries.GetFilteredList | app/src/main/java/dev/artium/dukaandost/viemodel/ProductViewModel.kt:152-167 | an empty filter list returns the input unchanged; otherwise a product is kept exactly when its category equals some filter entry, and the result is a subsequence of the input (input order kept) |
| ProductQueries.GetFilteredListCount | app/src/main/java/dev/artium/dukaandost/viemodel/ProductViewModel.kt:157-162 | each kept product occurs as often as in the input, each dropped one not at all |
| ProductQueries.GetProductListWithSearchTerm | app/src/main/java/dev/artium/dukaandost/viemodel/ProductViewModel.kt:169-183 | a blank term (empty or only whitespace) returns the input unchanged; otherwise a product is kept exactly when its lowercased title or lowercased category contains the term as given, in input order |
| ProductQueries.GetProductListWithSearchTermCount | app/src/main/java/dev/artium/dukaandost/viemodel/ProductViewModel.kt:174-178 | each kept product occurs as often as in the input |
| ProductQueries.SearchWithUppercaseFindsNothing | app/src/main/java/dev/artium/dukaandost/viemodel/ProductViewModel.kt:176-177 | a term with an ASCII uppercase letter matches no product, because only the product side is lowercased |
| ProductQueries.GetSortedProductList | app/src/main/java/dev/artium/dukaandost/viemodel/ProductViewModel.kt:185-208 | the result is a permutation of the input; "Rating" sorts by rate descending, "Price: Low to High" by price ascending, "Price: High to Low" by price descending; any other option returns the input unchanged |
| ProductQueries.GetSortedProductListStable | app/src/main/java/dev/artium/dukaandost/viemodel/ProductViewModel.kt:190-201 | the three sorts are stable: the products with one key value appear in the same relative order as in the input |
| ProductQueries.Intersection | app/src/main/java/dev/artium/dukaandost/viemodel/ProductViewModel.kt:136-142 | a product is in the intersection exactly when it is in the base list and passes both the category filter and the search; it has no duplicates and is a subsequence of the base list's first occurrences |
| ProductQueries.IntersectionKeepsBaseOrder | app/src/main/java/dev/artium/dukaandost/viemodel/ProductViewModel.kt:141-142 | any two products of the intersection appear in the order of their first occurrences in the base list |
| ProductQueries.Reconcile | app/src/main/java/dev/artium/dukaandost/viemodel/ProductViewModel.kt:136-144 | the displayed list holds exactly the base products that pass filter and search, without duplicates, and is a permutation of the intersection; it is sorted by rate descending, price ascending or price descending for the three named options, and is the intersection unchanged for any other option |
| ProductQueries.ReconcileIsConjunction | app/src/main/java/dev/artium/dukaandost/viemodel/ProductViewModel.kt:136-142 | a product is displayed exactly when it is displayed with the filter alone and with the search alone |
| ProductQueries.ReconcileDefaultQueryDistinct | app/src/main/java/dev/artium/dukaandost/viemodel/ProductViewModel.kt:136-144 | with no filter, a blank term and an unnamed sort option, the displayed list is the base list with each product kept once, at its first occurrence |
| ProductQueries.ReconcileDefaultQuery | app/src/main/java/dev/artium/dukaandost/viemodel/ProductViewModel.kt:136-144 | as a corollary, for a base list without duplicates, the default query (no filter, blank term, unnamed sort option) displays the base list unchanged |
| ProductQueries.ReconcileUnknownCategories | app/src/main/java/dev/artium/dukaandost/viemodel/ProductViewModel.kt:157-162 | a filter naming only categories no product has displays nothing |
| ProductSort.Insert | app/src/main/java/dev/artium/dukaandost/viemodel/ProductViewModel.kt:190-201 | inserting adds exactly one occurrence of the product |
| ProductSort.InsertSorted | app/src/main/java/dev/artium/dukaandost/viemodel/ProductViewModel.kt:190-201 | inserting into a sorted list keeps it sorted |
| ProductSort.SortBy | app/src/main/java/dev/artium/dukaandost/viemodel/ProductViewModel.kt:190-201 | the sorted list is a permutation of the input and is ordered by the key in the given direction |
| ProductSort.InsertStable | app/src/main/java/dev/artium/dukaandost/viemodel/ProductViewModel.kt:190-201 | inserting a product leaves the relative order of the products that share a key unchanged, the new one first among its key |
| ProductSort.SortStable | app/src/main/java/dev/artium/dukaandost/viemodel/ProductViewModel.kt:190-201 | sorting keeps the relative order of the products that share a key value |
| ViewModel.ProductViewModel.SelectedFilterList | app/src/main/java/dev/artium/dukaandost/viemodel/ProductViewModel.kt:33-37 | the stored filter list, or the empty list when the key is missing |
| ViewModel.ProductViewModel.SearchTerm | app/src/main/java/dev/artium/dukaandost/viemodel/ProductViewModel.kt:38-42 | the stored search term, or "" when the key is missing |
| ViewModel.ProductViewModel.SortOption | app/src/main/java/dev/artium/dukaandost/viemodel/ProductViewModel.kt:43-47 | the stored sort option, or "sort_default" when the key is missing |
| ViewModel.ProductViewModel.QueryResult | app/src/main/java/dev/artium/dukaandost/viemodel/ProductViewModel.kt:136-144 | the list the stored query selects holds exactly the base products passing the stored filter and search, without duplicates, ordered by the stored sort option (the intersection unchanged for an unnamed option); it depends only on the base list and the three stored fields |
| ViewModel.ProductViewModel.constructor | app/src/main/java/dev/artium/dukaandost/viemodel/ProductViewModel.kt:57-69 | each query key missing from the restored state is set to its default, present keys keep their values, and the base lists start empty |
| ViewModel.ProductViewModel.SetSelectedFilterList | app/src/main/java/dev/artium/dukaandost/viemodel/ProductViewModel.kt:35-37 | writes the filter list under "selected_filter" and changes nothing else |
| ViewModel.ProductViewModel.SetSearchTerm | app/src/main/java/dev/artium/dukaandost/viemodel/ProductViewModel.kt:40-42 | writes the term under "search_term" and changes nothing else |
| ViewModel.ProductViewModel.SetSortOption | app/src/main/java/dev/artium/dukaandost/viemodel/ProductViewModel.kt:45-47 | writes the option under "sort_option" and changes nothing else |
| ViewModel.ProductViewModel.CatalogFetched | app/src/main/java/dev/artium/dukaandost/viemodel/ProductViewModel.kt:91-122 | the fetched lists become the base lists and are published unfiltered |
| ViewModel.ProductViewModel.ClearFiltersAndRefresh | app/src/main/java/dev/artium/dukaandost/viemodel/ProductViewModel.kt:73-76 | the term becomes "", the filter list empty and the sort option "sort_default"; for a base list without duplicates the stored query then selects the whole base list |
| ViewModel.ProductViewModel.RefreshProductList | app/src/main/java/dev/artium/dukaandost/viemodel/ProductViewModel.kt:127-150 | each given argument is stored and each left-out one keeps its stored value; the published list is the stored query over the base list, with the stored category list |
| ViewModel.ProductViewModel.Publish | app/src/main/java/dev/artium/dukaandost/viemodel/ProductViewModel.kt:136-149 | publishes the stored query's result over the base list with the unchanged category list |
| ViewModel.RefreshIsRepeatable | app/src/main/java/dev/artium/dukaandost/viemodel/ProductViewModel.kt:127-150 | refreshing twice with no arguments publishes the same value twice, since nothing is computed from the previously displayed list |
| DukkanDostUtils.CapitalizeFirstLetter | app/src/main/java/dev/artium/dukaandost/DukkanDostUtils.kt:13-19 | "" stays ""; otherwise the first character is uppercased and the rest kept, so the result is never shorter |
| DukkanDostUtils.CapitalizeKeepsTail | app/src/main/java/dev/artium/dukaandost/DukkanDostUtils.kt:17 | everything after the uppercased first character is the input's tail |
| DukkanDostUtils.CapitalizeFixedHead | app/src/main/java/dev/artium/dukaandost/DukkanDostUtils.kt:17 | a string whose first character is already uppercase, or has no case, is returned unchanged |
| DukkanDostUtils.CapitalizeIdempotent | app/src/main/java/dev/artium/dukaandost/DukkanDostUtils.kt:13-19 | capitalising twice gives the same as capitalising once |
| DukkanDostUtils.CapitalizeCanLengthen | app/src/main/java/dev/artium/dukaandost/DukkanDostUtils.kt:17 | uppercasing can lengthen a string: "ßa" becomes "SSa" |
| DukkanDostUtils.AppendCurrencyCode | app/src/main/java/dev/artium/dukaandost/DukkanDostUtils.kt:20-22 | the result is "$" followed by the input, one character longer |
| DukkanDostUtils.AppendCurrencyCodeInjective | app/src/main/java/dev/artium/dukaandost/DukkanDostUtils.kt:20-22 | different strings get different results |
| DomainProductMapper.MapFromEntity | app/src/main/java/dev/artium/dukaandost/domain/ProductEntityNetworkMapper.kt:10-24 | id, title, price, description, category, image, rating rate and rating count are carried over unchanged |
| DomainProductMapper.MapFromEntityLeftInverse | app/src/main/java/dev/artium/dukaandost/domain/ProductEntityNetworkMapper.kt:10-24 | the response can be rebuilt from the model, so no information is lost |
| DomainProductMapper.MapFromEntityInjective | app/src/main/java/dev/artium/dukaandost/domain/ProductEntityNetworkMapper.kt:10-24 | different responses map to different models |
| DomainProductMapper.MapToEntity | app/src/main/java/dev/artium/dukaandost/domain/ProductEntityNetworkMapper.kt:26-28 | the reverse mapping is not implemented and always fails |
| ModelProductMapper.MapFromEntity | app/src/main/java/dev/artium/dukaandost/model/ProductEntityNetworkMapper.kt:9-23 | every field, including rating rate and count, is carried over unchanged |
| ModelProductMapper.MapFromEntityInjective | app/src/main/java/dev/artium/dukaandost/model/ProductEntityNetworkMapper.kt:9-23 | different responses map to different models |
| ModelProductMapper.AgreesWithDomainMapper | app/src/main/java/dev/artium/dukaandost/model/ProductEntityNetworkMapper.kt:9-23 | the duplicate mapper gives the same result as the one in the domain package |
| ModelProductMapper.MapToEntity | app/src/main/java/dev/artium/dukaandost/model/ProductEntityNetworkMapper.kt:25-27 | the reverse mapping is not implemented and always fails |
| Text.LowercaseContainsNoUpper | app/src/main/java/dev/artium/dukaandost/viemodel/ProductViewModel.kt:176-177 | a lowercased string contains no term with an ASCII uppercase letter |
| Scenarios.FilterOnTwoCategories | app/src/test/java/dev/artium/dukaandost/ProductViewModelUnitTest.kt:80-108 | filters "Category A" and "Category B" over the test's four products give products 1 and 2 |
| Scenarios.SortByRating | app/src/main/java/dev/artium/dukaandost/viemodel/ProductViewModel.kt:191-193 | the test's catalog sorted by rating is products 4, 1, 2, 3 |
| Scenarios.FilterThenSortByPrice | app/src/main/java/dev/artium/dukaandost/viemodel/ProductViewModel.kt:136-144 | filtering the test's catalog on categories A and B and sorting by ascending price displays products 1 and 2 |
| Scenarios.UnknownCategoryShowsNothing | app/src/main/java/dev/artium/dukaandost/viemodel/ProductViewModel.kt:152-167 | a filter on a category no product has displays nothing |
| Scenarios.CapitalisedSearchShowsNothing | app/src/main/java/dev/artium/dukaandost/viemodel/ProductViewModel.kt:169-183 | searching the test's catalog for "Product" displays nothing |

## Left out

- `fetchAllProductsAndCategories` (ProductViewModel.kt:80-125) is not part of this model. It launches a coroutine, collects the repository's flows, posts LiveData values and toggles the loader flag. `CatalogFetched` models only its outcome: the fetched lists (empty on an error) become the base lists and are published. `init` and `clearFiltersAndRefresh` start a fetch, which the constructor and `ClearFiltersAndRefresh` leave out.
- The repository, API service, dependency injection, the cache interceptor and the whole Compose UI are not part of this model: they are network, OS and UI plumbing.
- `printLog` and `networkImageLoaderWithCache` wrap Android's log and the Coil image loader, so they are not modelled.
- `price`, `rating.rate` and `rating.count` are Kotlin `Double`s, modelled as `real`. NaN and -0.0 are not modelled. The code only compares and copies these values.
- `id` is a 32-bit `Int`, modelled as `int`. It is only copied, so no wrap-around arises.
- Text.Lowercase and Text.UppercaseChar: case mapping covers ASCII letters, plus 'ß' uppercasing to "SS". Kotlin's `lowercase()` and `uppercase()` map all of Unicode.
- DukkanDostUtils.CapitalizeFirstLetter: Kotlin's `substring(0, 1)` takes one UTF-16 code unit, while a Dafny `char` is a whole code point. Under the modelled case map a character outside the Basic Multilingual Plane is left unchanged either way, so the results agree; surrogate pairs are not modelled.
- ViewModel.ProductViewModel.constructor requires the restored saved state to hold a list under "selected_filter" and strings under the other two keys. A value of another type would make Kotlin's getters throw a `ClassCastException`, which the model does not capture.
- DomainProductMapper.MapToEntity and ModelProductMapper.MapToEntity return a `Failure` instead of throwing `NotImplementedError`.
- The saved-state handle's persistence across process death, and the LiveData observers, are not modelled. The published value is a plain field.
