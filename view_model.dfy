/** `ProductViewModel`: the three query fields kept in the saved-state
    handle, the base lists set by the catalog fetch, and the list it
    publishes to the screen. */
module ViewModel {
  import opened Wrappers
  import opened Products
  import opened ProductQueries
  import opened DukaanDostConstants
  import Lists
  import ProductSort

  const FILTER_KEY: string := "selected_filter"
  const SEARCH_TERM: string := "search_term"
  const SORT_OPTION: string := "sort_option"

  /** A value kept in the saved-state handle: a string or a list of
      strings. */
  datatype SavedValue = Str(text: string) | StrList(items: seq<string>)

  /** Each query key that is present holds the kind of value its accessor
      reads. */
  predicate WellTyped(state: map<string, SavedValue>) {
    && (FILTER_KEY in state ==> state[FILTER_KEY].StrList?)
    && (SEARCH_TERM in state ==> state[SEARCH_TERM].Str?)
    && (SORT_OPTION in state ==> state[SORT_OPTION].Str?)
  }

  class ProductViewModel {
    var savedStateHandle: map<string, SavedValue>
    var listOfProducts: seq<ProductModel>
    var listOfCategories: seq<string>
    /** The value of the published live data, `None` before the first
        publication. */
    var productCategoryData: Option<ProductCategoryDataModel>

    /** After `init`, the three query keys are present, each with a value
        of its kind. */
    ghost predicate Valid()
      reads this
    {
      && WellTyped(savedStateHandle)
      && FILTER_KEY in savedStateHandle
      && SEARCH_TERM in savedStateHandle
      && SORT_OPTION in savedStateHandle
    }

    /** `mSelectedFilterList`: the stored list, or no filter when the key
        is missing. */
    function SelectedFilterList(): (r: seq<string>)
      reads this
      ensures FILTER_KEY !in savedStateHandle ==> r == []
      ensures FILTER_KEY in savedStateHandle && savedStateHandle[FILTER_KEY].StrList? ==>
        r == savedStateHandle[FILTER_KEY].items
    {
      if FILTER_KEY in savedStateHandle && savedStateHandle[FILTER_KEY].StrList?
      then savedStateHandle[FILTER_KEY].items
      else []
    }

    /** `mSearchTerm`: the stored term, or the empty term when the key is
        missing. */
    function SearchTerm(): (r: string)
      reads this
      ensures SEARCH_TERM !in savedStateHandle ==> r == ""
      ensures SEARCH_TERM in savedStateHandle && savedStateHandle[SEARCH_TERM].Str? ==>
        r == savedStateHandle[SEARCH_TERM].text
    {
      if SEARCH_TERM in savedStateHandle && savedStateHandle[SEARCH_TERM].Str?
      then savedStateHandle[SEARCH_TERM].text
      else ""
    }

    /** `mSortOption`: the stored option, or `SORT_DEFAULT` when the key is
        missing. */
    function SortOption(): (r: string)
      reads this
      ensures SORT_OPTION !in savedStateHandle ==> r == SORT_DEFAULT
      ensures SORT_OPTION in savedStateHandle && savedStateHandle[SORT_OPTION].Str? ==>
        r == savedStateHandle[SORT_OPTION].text
    {
      if SORT_OPTION in savedStateHandle && savedStateHandle[SORT_OPTION].Str?
      then savedStateHandle[SORT_OPTION].text
      else SORT_DEFAULT
    }

    /** The list the stored query selects from the stored base list. */
    function QueryResult(): (r: seq<ProductModel>)
      reads this
      ensures forall p :: p in r <==>
        p in listOfProducts && PassesFilter(p, SelectedFilterList()) && PassesSearch(p, SearchTerm())
      ensures Lists.NoDuplicates(r)
      ensures SortOption() == SORT_RATING ==> ProductSort.SortedBy(r, ProductSort.Rate, ProductSort.Descending)
      ensures SortOption() == SORT_PRICE_LOW_TO_HIGH ==> ProductSort.SortedBy(r, ProductSort.Price, ProductSort.Ascending)
      ensures SortOption() == SORT_PRICE_HIGH_TO_HIGH ==> ProductSort.SortedBy(r, ProductSort.Price, ProductSort.Descending)
      ensures !IsNamedSortOption(SortOption()) ==>
        r == Intersection(listOfProducts, SearchTerm(), SelectedFilterList())
    {
      Reconcile(listOfProducts, SearchTerm(), SelectedFilterList(), SortOption())
    }

    /** `init`: the restored saved state, with each query key that is
        missing set to its default; the base lists start empty. The fetch
        `init` starts is not part of this model. */
    constructor (savedState: map<string, SavedValue>)
      requires WellTyped(savedState)
      ensures Valid()
      ensures savedStateHandle.Keys == savedState.Keys + {FILTER_KEY, SEARCH_TERM, SORT_OPTION}
      ensures forall k :: k in savedState ==> savedStateHandle[k] == savedState[k]
      ensures FILTER_KEY !in savedState ==> savedStateHandle[FILTER_KEY] == StrList([])
      ensures SEARCH_TERM !in savedState ==> savedStateHandle[SEARCH_TERM] == Str("")
      ensures SORT_OPTION !in savedState ==> savedStateHandle[SORT_OPTION] == Str(SORT_DEFAULT)
      ensures listOfProducts == [] && listOfCategories == [] && productCategoryData == None
    {
      savedStateHandle := savedState;
      listOfProducts := [];
      listOfCategories := [];
      productCategoryData := None;
      new;
      if FILTER_KEY !in savedStateHandle {
        savedStateHandle := savedStateHandle[FILTER_KEY := StrList([])];
      }
      if SEARCH_TERM !in savedStateHandle {
        savedStateHandle := savedStateHandle[SEARCH_TERM := Str("")];
      }
      if SORT_OPTION !in savedStateHandle {
        savedStateHandle := savedStateHandle[SORT_OPTION := Str(SORT_DEFAULT)];
      }
    }

    /** The setter of `mSelectedFilterList`. */
    method SetSelectedFilterList(value: seq<string>)
      requires Valid()
      modifies this`savedStateHandle
      ensures Valid()
      ensures savedStateHandle == old(savedStateHandle)[FILTER_KEY := StrList(value)]
      ensures SelectedFilterList() == value
    {
      savedStateHandle := savedStateHandle[FILTER_KEY := StrList(value)];
    }

    /** The setter of `mSearchTerm`. */
    method SetSearchTerm(value: string)
      requires Valid()
      modifies this`savedStateHandle
      ensures Valid()
      ensures savedStateHandle == old(savedStateHandle)[SEARCH_TERM := Str(value)]
      ensures SearchTerm() == value
    {
      savedStateHandle := savedStateHandle[SEARCH_TERM := Str(value)];
    }

    /** The setter of `mSortOption`. */
    method SetSortOption(value: string)
      requires Valid()
      modifies this`savedStateHandle
      ensures Valid()
      ensures savedStateHandle == old(savedStateHandle)[SORT_OPTION := Str(value)]
      ensures SortOption() == value
    {
      savedStateHandle := savedStateHandle[SORT_OPTION := Str(value)];
    }

    /** What a completed `fetchAllProductsAndCategories` leaves behind: the
        fetched lists become the base lists and are published as they
        are. A failed fetch passes empty lists. */
    method CatalogFetched(products: seq<ProductModel>, categories: seq<string>)
      modifies this`listOfProducts, this`listOfCategories, this`productCategoryData
      ensures listOfProducts == products && listOfCategories == categories
      ensures productCategoryData == Some(ProductCategoryDataModel(products, categories))
    {
      listOfProducts := products;
      listOfCategories := categories;
      productCategoryData := Some(ProductCategoryDataModel(listOfProducts, listOfCategories));
    }

    /** `clearFiltersAndRefresh`: the three query fields back to their
        defaults. The fetch it then starts is not part of this model. */
    method ClearFiltersAndRefresh()
      requires Valid()
      modifies this`savedStateHandle
      ensures Valid()
      ensures savedStateHandle == old(savedStateHandle)[SEARCH_TERM := Str("")]
        [FILTER_KEY := StrList([])][SORT_OPTION := Str(SORT_DEFAULT)]
      ensures SearchTerm() == "" && SelectedFilterList() == [] && SortOption() == SORT_DEFAULT
      ensures Lists.NoDuplicates(listOfProducts) ==> QueryResult() == listOfProducts
    {
      SetSearchTerm("");
      SetSelectedFilterList([]);
      SetSortOption(SORT_DEFAULT);
      if Lists.NoDuplicates(listOfProducts) {
        ReconcileDefaultQuery(listOfProducts, "", SORT_DEFAULT);
      }
    }

    /** `refreshProductList`: stores each query field given (an absent
        argument keeps the stored value), then publishes the base list
        filtered, searched, intersected and sorted under the stored query,
        with the category list unchanged. */
    method RefreshProductList(searchTerm: Option<string>, filter: Option<seq<string>>, sortOption: Option<string>)
      requires Valid()
      modifies this`savedStateHandle, this`productCategoryData
      ensures Valid()
      ensures SearchTerm() == searchTerm.GetOr(old(SearchTerm()))
      ensures SelectedFilterList() == filter.GetOr(old(SelectedFilterList()))
      ensures SortOption() == sortOption.GetOr(old(SortOption()))
      ensures savedStateHandle == old(savedStateHandle)
        [SEARCH_TERM := Str(searchTerm.GetOr(old(SearchTerm())))]
        [FILTER_KEY := StrList(filter.GetOr(old(SelectedFilterList())))]
        [SORT_OPTION := Str(sortOption.GetOr(old(SortOption())))]
      ensures productCategoryData == Some(ProductCategoryDataModel(QueryResult(), listOfCategories))
    {
      var term := searchTerm.GetOr(SearchTerm());
      var filters := filter.GetOr(SelectedFilterList());
      var option := sortOption.GetOr(SortOption());
      SetSearchTerm(term);
      SetSelectedFilterList(filters);
      SetSortOption(option);

      Publish();
    }

    /** The second half of `refreshProductList`: the base list filtered,
        searched, intersected and sorted under the stored query is
        published with the category list. */
    method Publish()
      modifies this`productCategoryData
      ensures productCategoryData == Some(ProductCategoryDataModel(QueryResult(), listOfCategories))
    {
      var base := listOfProducts;
      var filters := SelectedFilterList();
      var term := SearchTerm();
      var productListWithFilter := GetFilteredList(base, filters);
      var productListContainsSearchTerm := GetProductListWithSearchTerm(base, term);
      var intersectionList := Lists.Intersect(productListWithFilter, productListContainsSearchTerm);
      var sortedIntersectionList := GetSortedProductList(intersectionList, SortOption());
      productCategoryData := Some(ProductCategoryDataModel(sortedIntersectionList, listOfCategories));
    }
  }

  /** Refreshing twice with nothing given publishes the same list twice:
      the result depends only on the base list and the stored query. */
  method RefreshIsRepeatable(vm: ProductViewModel)
    requires vm.Valid()
    modifies vm`savedStateHandle, vm`productCategoryData
    ensures vm.productCategoryData == old(Some(ProductCategoryDataModel(vm.QueryResult(), vm.listOfCategories)))
  {
    vm.RefreshProductList(None, None, None);
    var first := vm.productCategoryData;
    vm.RefreshProductList(None, None, None);
    assert vm.productCategoryData == first;
  }
}
