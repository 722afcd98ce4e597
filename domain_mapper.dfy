/** `domain.ProductEntityNetworkMapper`: converts the network record into
    the app's product model. */
module DomainProductMapper {
  import opened Products
  import opened Wrappers

  datatype MapperError = NotImplemented

  /** `mapFromEntity`: every field, the rating's included, carried over
      unchanged. */
  function MapFromEntity(entity: ProductResponse): (model: ProductModel)
    ensures model.id == entity.id && model.title == entity.title
    ensures model.price == entity.price && model.description == entity.description
    ensures model.category == entity.category && model.image == entity.image
    ensures model.rating.rate == entity.rating.rate
    ensures model.rating.count == entity.rating.count
  {
    ProductModel(
      id := entity.id,
      title := entity.title,
      price := entity.price,
      description := entity.description,
      category := entity.category,
      image := entity.image,
      rating := RatingModel(rate := entity.rating.rate, count := entity.rating.count)
    )
  }

  /** The network record a model was mapped from. */
  function EntityOf(model: ProductModel): ProductResponse {
    ProductResponse(model.id, model.title, model.price, model.description,
                    model.category, model.image,
                    Rating(model.rating.rate, model.rating.count))
  }

  /** No field is lost: the record can be recovered from its model. */
  lemma MapFromEntityLeftInverse(entity: ProductResponse)
    ensures EntityOf(MapFromEntity(entity)) == entity
  {
  }

  /** Distinct records map to distinct models. */
  lemma MapFromEntityInjective(a: ProductResponse, b: ProductResponse)
    requires MapFromEntity(a) == MapFromEntity(b)
    ensures a == b
  {
    MapFromEntityLeftInverse(a);
    MapFromEntityLeftInverse(b);
  }

  /** `mapToEntity`: not implemented; every call fails. */
  function MapToEntity(model: ProductModel): (r: Result<ProductResponse, MapperError>)
    ensures r.Failure? && r.error == NotImplemented
  {
    Failure(NotImplemented)
  }
}
