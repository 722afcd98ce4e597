/** The three list helpers of `ProductViewModel` (category filter, search,
    sort) and the list `refreshProductList` derives from them: filter and
    search each applied to the base list, the two results intersected, the
    intersection sorted. */
module ProductQueries {
  import opened Products
  import opened Lists
  import opened Text
  import opened ProductSort
  import opened DukaanDostConstants

  /** The category filter admits `p`: no category is selected, or the
      category of `p` equals one of those selected, case and all. */
  predicate PassesFilter(p: ProductModel, filters: seq<string>) {
    filters == [] || p.category in filters
  }

  /** The lower-cased title or the lower-cased category of `p` contains
      `term`, which itself is not lower-cased. */
  predicate MatchesSearchTerm(p: ProductModel, term: string) {
    Contains(Lowercase(p.title), term) || Contains(Lowercase(p.category), term)
  }

  /** The search admits `p`: the term is blank, or `p` matches it. */
  predicate PassesSearch(p: ProductModel, term: string) {
    IsBlank(term) || MatchesSearchTerm(p, term)
  }

  function InCategories(filters: seq<string>): ProductModel -> bool {
    (p: ProductModel) => p.category in filters
  }

  function MatchesTerm(term: string): ProductModel -> bool {
    (p: ProductModel) => MatchesSearchTerm(p, term)
  }

  /** `getFilteredList`: with no category selected the list as it is,
      otherwise the products of a selected category, in list order. */
  function GetFilteredList(products: seq<ProductModel>, filters: seq<string>): (r: seq<ProductModel>)
    ensures filters == [] ==> r == products
    ensures forall p :: p in r <==> p in products && PassesFilter(p, filters)
    ensures IsSubsequence(r, products)
  {
    if |filters| != 0 then Filter(products, InCategories(filters))
    else SubsequenceReflexive(products); products
  }

  /** The filter keeps every copy of an admitted product and drops every
      copy of the others; with the subsequence property this fixes the
      result entirely. */
  lemma GetFilteredListCount(products: seq<ProductModel>, filters: seq<string>, p: ProductModel)
    ensures multiset(GetFilteredList(products, filters))[p]
         == if PassesFilter(p, filters) then multiset(products)[p] else 0
  {
    if filters != [] {
      FilterCount(products, InCategories(filters), p);
    }
  }

  /** `getProductListWithSearchTerm`: with a blank term the list as it is,
      otherwise the products that match the term, in list order. */
  function GetProductListWithSearchTerm(products: seq<ProductModel>, term: string): (r: seq<ProductModel>)
    ensures IsBlank(term) ==> r == products
    ensures forall p :: p in r <==> p in products && PassesSearch(p, term)
    ensures IsSubsequence(r, products)
  {
    if !IsBlank(term) then Filter(products, MatchesTerm(term))
    else SubsequenceReflexive(products); products
  }

  /** The search keeps every copy of a matching product and drops every
      copy of the others. */
  lemma GetProductListWithSearchTermCount(products: seq<ProductModel>, term: string, p: ProductModel)
    ensures multiset(GetProductListWithSearchTerm(products, term))[p]
         == if PassesSearch(p, term) then multiset(products)[p] else 0
  {
    if !IsBlank(term) {
      FilterCount(products, MatchesTerm(term), p);
    }
  }

  /** Only the product side is lower-cased, so a term with an upper-case
      letter in it matches no product at all. */
  lemma SearchWithUppercaseFindsNothing(products: seq<ProductModel>, term: string, k: nat)
    requires k < |term| && IsAsciiUpper(term[k])
    ensures GetProductListWithSearchTerm(products, term) == []
  {
    assert !IsWhitespace(term[k]);
    forall p: ProductModel ensures !MatchesSearchTerm(p, term) {
      LowercaseContainsNoUpper(p.title, term, k);
      LowercaseContainsNoUpper(p.category, term, k);
    }
    FilterNone(products, MatchesTerm(term));
  }

  /** The sort options `getSortedProductList` acts on. */
  predicate IsNamedSortOption(sortOption: string) {
    sortOption == SORT_RATING || sortOption == SORT_PRICE_LOW_TO_HIGH ||
    sortOption == SORT_PRICE_HIGH_TO_HIGH
  }

  /** `getSortedProductList`: rating high to low, price low to high, price
      high to low, or the list as it is for any other option. */
  function GetSortedProductList(products: seq<ProductModel>, sortOption: string): (r: seq<ProductModel>)
    ensures multiset(r) == multiset(products)
    ensures sortOption == SORT_RATING ==> SortedBy(r, Rate, Descending)
    ensures sortOption == SORT_PRICE_LOW_TO_HIGH ==> SortedBy(r, Price, Ascending)
    ensures sortOption == SORT_PRICE_HIGH_TO_HIGH ==> SortedBy(r, Price, Descending)
    ensures !IsNamedSortOption(sortOption) ==> r == products
  {
    if sortOption == SORT_RATING then SortBy(products, Rate, Descending)
    else if sortOption == SORT_PRICE_LOW_TO_HIGH then SortBy(products, Price, Ascending)
    else if sortOption == SORT_PRICE_HIGH_TO_HIGH then SortBy(products, Price, Descending)
    else products
  }

  /** Each named sort is stable: products with equal keys keep the order
      they had before sorting. */
  lemma GetSortedProductListStable(products: seq<ProductModel>, sortOption: string, v: real)
    ensures sortOption == SORT_RATING ==>
      WithKey(GetSortedProductList(products, sortOption), Rate, v) == WithKey(products, Rate, v)
    ensures sortOption == SORT_PRICE_LOW_TO_HIGH || sortOption == SORT_PRICE_HIGH_TO_HIGH ==>
      WithKey(GetSortedProductList(products, sortOption), Price, v) == WithKey(products, Price, v)
  {
    if sortOption == SORT_RATING {
      SortStable(products, Rate, Descending, v);
    } else if sortOption == SORT_PRICE_LOW_TO_HIGH {
      SortStable(products, Price, Ascending, v);
    } else if sortOption == SORT_PRICE_HIGH_TO_HIGH {
      SortStable(products, Price, Descending, v);
    }
  }

  /** The list `refreshProductList` builds before sorting: the filtered
      base list intersected with the searched base list. */
  function Intersection(base: seq<ProductModel>, searchTerm: string, filters: seq<string>): (r: seq<ProductModel>)
    ensures forall p :: p in r <==> p in base && PassesFilter(p, filters) && PassesSearch(p, searchTerm)
    ensures NoDuplicates(r)
    ensures IsSubsequence(r, Distinct(base))
  {
    var withFilter := GetFilteredList(base, filters);
    var withSearch := GetProductListWithSearchTerm(base, searchTerm);
    var r := Intersect(withFilter, withSearch);
    FilteredDistinct(base, filters);
    SubsequenceTransitive(r, Distinct(withFilter), Distinct(base));
    r
  }

  /** The category filter keeps whole products, all copies or none, so the
      distinct products it keeps are in the base list's distinct order. */
  lemma FilteredDistinct(base: seq<ProductModel>, filters: seq<string>)
    ensures IsSubsequence(Distinct(GetFilteredList(base, filters)), Distinct(base))
  {
    if filters != [] {
      DistinctOfFilter(base, InCategories(filters));
    } else {
      SubsequenceReflexive(Distinct(base));
    }
  }

  /** Before sorting, products appear in the order of their first
      occurrence in the base list. */
  lemma IntersectionKeepsBaseOrder(base: seq<ProductModel>, searchTerm: string, filters: seq<string>, i: nat, j: nat)
    requires i < j < |Intersection(base, searchTerm, filters)|
    ensures var r := Intersection(base, searchTerm, filters);
      r[i] in base && r[j] in base && FirstIndex(base, r[i]) < FirstIndex(base, r[j])
  {
    SubsequenceOfDistinctOrder(Intersection(base, searchTerm, filters), base, i, j);
  }

  /** The displayed list: the intersection, sorted by the sort option. */
  function Reconcile(base: seq<ProductModel>, searchTerm: string, filters: seq<string>, sortOption: string): (r: seq<ProductModel>)
    ensures forall p :: p in r <==> p in base && PassesFilter(p, filters) && PassesSearch(p, searchTerm)
    ensures NoDuplicates(r)
    ensures multiset(r) == multiset(Intersection(base, searchTerm, filters))
    ensures sortOption == SORT_RATING ==> SortedBy(r, Rate, Descending)
    ensures sortOption == SORT_PRICE_LOW_TO_HIGH ==> SortedBy(r, Price, Ascending)
    ensures sortOption == SORT_PRICE_HIGH_TO_HIGH ==> SortedBy(r, Price, Descending)
    ensures !IsNamedSortOption(sortOption) ==> r == Intersection(base, searchTerm, filters)
  {
    var before := Intersection(base, searchTerm, filters);
    var r := GetSortedProductList(before, sortOption);
    PermutationNoDuplicates(before, r);
    r
  }

  /** Filter and search are conjunctive: a product is shown exactly when
      it is shown with the filter alone and with the search alone. */
  lemma ReconcileIsConjunction(base: seq<ProductModel>, searchTerm: string, filters: seq<string>, sortOption: string)
    ensures forall p :: p in Reconcile(base, searchTerm, filters, sortOption) <==>
      p in Reconcile(base, "", filters, sortOption) && p in Reconcile(base, searchTerm, [], sortOption)
  {
  }

  /** With no category selected, a blank term and an unnamed sort option,
      the base list is shown with each product once, at its first
      occurrence: `intersect` drops repeated products. */
  lemma ReconcileDefaultQueryDistinct(base: seq<ProductModel>, searchTerm: string, sortOption: string)
    requires IsBlank(searchTerm) && !IsNamedSortOption(sortOption)
    ensures Reconcile(base, searchTerm, [], sortOption) == Distinct(base)
  {
    FilterAll(Distinct(base), InList(base));
  }

  /** The default query shows a base list without duplicates as it is. */
  lemma ReconcileDefaultQuery(base: seq<ProductModel>, searchTerm: string, sortOption: string)
    requires NoDuplicates(base) && IsBlank(searchTerm) && !IsNamedSortOption(sortOption)
    ensures Reconcile(base, searchTerm, [], sortOption) == base
  {
    ReconcileDefaultQueryDistinct(base, searchTerm, sortOption);
    DistinctOfDistinct(base);
  }

  /** Selecting only categories that no product has shows nothing; there
      is no fall-back to the whole list. */
  lemma ReconcileUnknownCategories(base: seq<ProductModel>, searchTerm: string, filters: seq<string>, sortOption: string)
    requires filters != [] && forall p :: p in base ==> p.category !in filters
    ensures Reconcile(base, searchTerm, filters, sortOption) == []
  {
    FilterNone(base, InCategories(filters));
  }
}
