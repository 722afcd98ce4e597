/** `model.ProductEntityNetworkMapper`: a second copy of the mapper, kept
    in the `model` package. */
module ModelProductMapper {
  import opened Products
  import opened Wrappers
  import DomainProductMapper

  datatype MapperError = NotImplemented

  /** `mapFromEntity`: every field, the rating's included, carried over
      unchanged. */
  function MapFromEntity(entity: ProductResponse): (model: ProductModel)
    ensures model.id == entity.id && model.title == entity.title
    ensures model.price == entity.price && model.description == entity.description
    ensures model.category == entity.category && model.image == entity.image
    ensures model.rating.rate == entity.rating.rate
    ensures model.rating.count == entity.rating.count
  {
    ProductModel(
      id := entity.id,
      title := entity.title,
      price := entity.price,
      description := entity.description,
      category := entity.category,
      image := entity.image,
      rating := RatingModel(rate := entity.rating.rate, count := entity.rating.count)
    )
  }

  /** Distinct records map to distinct models. */
  lemma MapFromEntityInjective(a: ProductResponse, b: ProductResponse)
    requires MapFromEntity(a) == MapFromEntity(b)
    ensures a == b
  {
  }

  /** Both copies of the mapper produce the same model. */
  lemma AgreesWithDomainMapper(entity: ProductResponse)
    ensures MapFromEntity(entity) == DomainProductMapper.MapFromEntity(entity)
  {
  }

  /** `mapToEntity`: not implemented; every call fails. */
  function MapToEntity(model: ProductModel): (r: Result<ProductResponse, MapperError>)
    ensures r.Failure? && r.error == NotImplemented
  {
    Failure(NotImplemented)
  }
}
