/**
 * The records the HTTP controllers exchange (ReviewService/Models), the
 * action results they return, and the field-by-field mapping between them
 * and the repository's models (ReviewService/UserProfile.cs maps every
 * same-named field and nothing else).
 */
module ServiceModels {
  import opened Wrappers
  import opened ReviewData
  import ReviewStore

  /** A review as the customer API sends and receives it: it has no Visible field. */
  datatype ReviewDto = ReviewDto(
    customerId: int,
    customerName: NString,
    productId: int,
    rating: int,
    reviewText: NString,
    timeStamp: Ticks)

  /**
   * A purchase batch from the ordering service. Of each ordered ProductDto
   * only ProductId reaches the store, so the items are the product ids.
   */
  datatype PurchaseDto = PurchaseDto(customerId: int, customerAuthId: NString, orderedItems: Option<seq<int>>)

  /** CustomerDto has the fields of CustomerModel, so the mapping between them is the identity. */
  type CustomerDto = Customer

  /** The action result of a controller. */
  datatype Outcome =
    | Ok
    | OkReview(review: ReviewDto)
    | OkReviews(reviews: seq<ReviewDto>)
    | Forbid
    | Unprocessable
    | NotFound

  /** A controller's result together with the repository calls it made, in order. */
  datatype Response = Response(outcome: Outcome, calls: seq<ReviewStore.Call>)

  /** ReviewDto to ReviewModel: Visible is not in the DTO, so it arrives false. */
  function ToReviewModel(dto: ReviewDto): Review
  {
    Review(dto.customerId, dto.customerName, dto.productId, dto.rating, dto.reviewText, false, dto.timeStamp)
  }

  /** ReviewModel to ReviewDto: Visible is dropped. */
  function ToReviewDto(r: Review): ReviewDto
  {
    ReviewDto(r.customerId, r.customerName, r.productId, r.rating, r.reviewText, r.timeStamp)
  }

  /** A list of ReviewModels mapped element by element. */
  function ToReviewDtos(rs: seq<Review>): (ds: seq<ReviewDto>)
    ensures |ds| == |rs|
    ensures forall k :: 0 <= k < |rs| ==> ds[k] == ToReviewDto(rs[k])
  {
    seq(|rs|, k requires 0 <= k < |rs| => ToReviewDto(rs[k]))
  }

  /** AutoMapper's default maps a null collection to an empty one. */
  function ToPurchaseModel(dto: PurchaseDto): ReviewStore.PurchaseModel
  {
    ReviewStore.PurchaseModel(dto.customerId, dto.customerAuthId,
                              Some(if dto.orderedItems.Some? then dto.orderedItems.value else []))
  }

  /** Mapping a DTO to a model and back gives the DTO. */
  lemma ReviewDtoRoundTrip(dto: ReviewDto)
    ensures ToReviewDto(ToReviewModel(dto)) == dto
    ensures !ToReviewModel(dto).visible
  {
  }

  /** Mapping a model to a DTO and back loses exactly its visibility. */
  lemma ReviewModelRoundTrip(r: Review)
    ensures ToReviewModel(ToReviewDto(r)) == r.(visible := false)
  {
  }

  /**
   * The model passed on keeps the customer, its auth id and the ordered
   * product ids, in order; a null item list arrives as an empty one.
   */
  lemma PurchaseMappingKeepsBatch(dto: PurchaseDto)
    ensures var m := ToPurchaseModel(dto);
            m.customerId == dto.customerId && m.customerAuthId == dto.customerAuthId
            && m.orderedItems.Some?
            && (dto.orderedItems.Some? ==> m.orderedItems == dto.orderedItems)
            && (dto.orderedItems.None? ==> m.orderedItems.value == [])
  {
  }
}
