/** The four-product catalog of the view model's unit test, and what the
    reconciliation makes of it for a few queries. */
module Scenarios {
  import opened Products
  import opened Lists
  import opened Text
  import opened ProductQueries
  import opened ProductSort
  import opened DukaanDostConstants

  const P1 := ProductModel(1, "Product 1", 10.0, "Description 1", "Category A", "", RatingModel(4.5, 100.0))
  const P2 := ProductModel(2, "Product 2", 20.0, "Description 2", "Category B", "", RatingModel(4.0, 200.0))
  const P3 := ProductModel(3, "Product 3", 30.0, "Description 3", "Category C", "", RatingModel(3.5, 150.0))
  const P4 := ProductModel(4, "Product 4", 40.0, "Description 4", "Category D", "", RatingModel(4.8, 180.0))

  function Catalog(): seq<ProductModel> {
    [P1, P2, P3, P4]
  }

  /** Filtering on categories A and B keeps products 1 and 2, in order. */
  lemma FilterOnTwoCategories()
    ensures GetFilteredList(Catalog(), ["Category A", "Category B"]) == [P1, P2]
  {
    var keep := InCategories(["Category A", "Category B"]);
    assert keep(P1) && keep(P2) && !keep(P3) && !keep(P4);
    FilterCons(P4, [], keep);
    FilterCons(P3, [P4], keep);
    FilterCons(P2, [P3, P4], keep);
    FilterCons(P1, [P2, P3, P4], keep);
  }

  lemma SortRatingOfLastTwo()
    ensures SortBy([P3, P4], Rate, Descending) == [P4, P3]
  {
    assert [P3, P4][1..] == [P4] && [P4][1..] == [];
    assert SortBy([P4], Rate, Descending) == [P4];
  }

  lemma SortRatingOfLastThree()
    ensures SortBy([P2, P3, P4], Rate, Descending) == [P4, P2, P3]
  {
    SortRatingOfLastTwo();
    assert [P2, P3, P4][1..] == [P3, P4] && [P4, P3][1..] == [P3];
    assert Insert(P2, [P3], Rate, Descending) == [P2, P3];
  }

  lemma InsertRatingOfFirst()
    ensures Insert(P1, [P4, P2, P3], Rate, Descending) == [P4, P1, P2, P3]
  {
    assert [P4, P2, P3][1..] == [P2, P3];
    assert Insert(P1, [P2, P3], Rate, Descending) == [P1, P2, P3];
  }

  lemma SortRatingOfAll()
    ensures SortBy(Catalog(), Rate, Descending) == [P4, P1, P2, P3]
  {
    var c := Catalog();
    assert c[0] == P1 && c[1..] == [P2, P3, P4];
    SortRatingOfLastThree();
    InsertRatingOfFirst();
  }

  /** Sorting by rating puts product 4 (4.8) first, then 1, 2 and 3. */
  lemma SortByRating()
    ensures GetSortedProductList(Catalog(), SORT_RATING) == [P4, P1, P2, P3]
  {
    SortRatingOfAll();
  }

  lemma IntersectionOfTwoCategories()
    ensures Intersection(Catalog(), "", ["Category A", "Category B"]) == [P1, P2]
  {
    FilterOnTwoCategories();
    var both := [P1, P2];
    assert NoDuplicates(both);
    DistinctOfDistinct(both);
    FilterAll(both, InList(Catalog()));
  }

  lemma SortPriceOfFirstTwo()
    ensures SortBy([P1, P2], Price, Ascending) == [P1, P2]
  {
    assert [P2][1..] == [] && [P1, P2][1..] == [P2];
    assert SortBy([P2], Price, Ascending) == [P2];
  }

  /** Categories A and B sorted by price, low to high: products 1 and 2. */
  lemma FilterThenSortByPrice()
    ensures Reconcile(Catalog(), "", ["Category A", "Category B"], SORT_PRICE_LOW_TO_HIGH) == [P1, P2]
  {
    IntersectionOfTwoCategories();
    SortPriceOfFirstTwo();
  }

  /** A category no product has shows nothing. */
  lemma UnknownCategoryShowsNothing()
    ensures Reconcile(Catalog(), "", ["Category E"], SORT_DEFAULT) == []
  {
    ReconcileUnknownCategories(Catalog(), "", ["Category E"], SORT_DEFAULT);
  }

  /** "Product" contains an upper-case letter, and titles are lower-cased
      before the comparison, so the search finds nothing. */
  lemma CapitalisedSearchShowsNothing()
    ensures Reconcile(Catalog(), "Product", [], SORT_DEFAULT) == []
  {
    SearchWithUppercaseFindsNothing(Catalog(), "Product", 0);
    FilterNone(Distinct(Catalog()), InList([]));
  }
}
