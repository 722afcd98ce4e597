/** The product records: the shape the catalog endpoint returns
    (`ProductResponse`, `Rating`), the shape the app works with
    (`ProductModel`, `RatingModel`), and what the view model publishes
    (`ProductCategoryDataModel`). Kotlin `Double` fields are `real`: the
    code only compares them. */
module Products {

  datatype Rating = Rating(rate: real, count: real)

  datatype ProductResponse = ProductResponse(
    id: int,
    title: string,
    price: real,
    description: string,
    category: string,
    image: string,
    rating: Rating
  )

  datatype RatingModel = RatingModel(rate: real, count: real)

  /** A data class: two products are equal exactly when all fields are. */
  datatype ProductModel = ProductModel(
    id: int,
    title: string,
    price: real,
    description: string,
    category: string,
    image: string,
    rating: RatingModel
  )

  datatype ProductCategoryDataModel = ProductCategoryDataModel(
    listOfProducts: seq<ProductModel>,
    listOfCategories: seq<string>
  )
}

/** The sort option strings the sort sheet offers and the view model
    matches on. */
module DukaanDostConstants {
  const SORT_DEFAULT: string := "sort_default"
  const SORT_RATING: string := "Rating"
  const SORT_PRICE_LOW_TO_HIGH: string := "Price: Low to High"
  const SORT_PRICE_HIGH_TO_HIGH: string := "Price: High to Low"
}
