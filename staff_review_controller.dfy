/**
 * The staff review endpoints (ReviewService/Controllers/StaffReviewController.cs).
 * Staff are authorised by the StaffOnly policy alone: no route asks the
 * repository about auth ids, and reads see hidden reviews.
 */
module StaffReviewController {
  import opened Wrappers
  import opened ReviewData
  import opened ServiceModels
  import ReviewStore
  import Repository
  import CustomerReviewController

  /**
   * Get: a customer-only request lists the customer's reviews whose
   * visibility equals `visible` (true when the query leaves it out), a
   * product-only request lists the product's, and any other request reads
   * the one review keyed by both ids as staff.
   */
  function Get(db: Db, customerId: Option<int>, productId: Option<int>, visible: Option<bool>): (r: Response)
    ensures |r.calls| == 1
    ensures forall k :: 0 <= k < |r.calls| ==> !r.calls[k].ValidAuthIdCall?
    ensures r.outcome != Forbid && r.outcome != Unprocessable && r.outcome != Ok
  {
    if CustomerReviewController.Positive(customerId) && !CustomerReviewController.Positive(productId) then
      var c := customerId.value;
      Response(OkReviews(ToReviewDtos(ReviewStore.GetReviewsByCustomerId(db, c, visible))),
               [ReviewStore.GetReviewsByCustomerIdCall(c, visible)])
    else if CustomerReviewController.Positive(productId) && !CustomerReviewController.Positive(customerId) then
      var p := productId.value;
      Response(OkReviews(ToReviewDtos(ReviewStore.GetReviewsByProductId(db, p, visible))),
               [ReviewStore.GetReviewsByProductIdCall(p, visible)])
    else
      var c, p := CustomerReviewController.OrZero(customerId), CustomerReviewController.OrZero(productId);
      var review := ReviewStore.GetReview(db, c, p, true);
      Response(if review.Some? then OkReview(ToReviewDto(review.value)) else NotFound,
               [ReviewStore.GetReviewCall(c, p, true)])
  }

  /** A customer-only request lists exactly that customer's reviews with the requested visibility. */
  lemma GetCustomerReviews(db: Db, customerId: int, productId: Option<int>, visible: Option<bool>)
    requires customerId > 0 && !CustomerReviewController.Positive(productId)
    ensures var r := Get(db, Some(customerId), productId, visible);
            r.calls == [ReviewStore.GetReviewsByCustomerIdCall(customerId, visible)]
            && r.outcome.OkReviews?
            && CustomerReviewController.Lists(r.outcome.reviews, db, ReviewStore.OfCustomer(customerId, visible))
  {
    var rs := ReviewStore.GetReviewsByCustomerId(db, customerId, visible);
    CustomerReviewController.MappedListing(rs, db, ReviewStore.OfCustomer(customerId, visible));
  }

  /** A product-only request lists exactly that product's reviews with the requested visibility. */
  lemma GetProductReviews(db: Db, customerId: Option<int>, productId: int, visible: Option<bool>)
    requires productId > 0 && !CustomerReviewController.Positive(customerId)
    ensures var r := Get(db, customerId, Some(productId), visible);
            r.calls == [ReviewStore.GetReviewsByProductIdCall(productId, visible)]
            && r.outcome.OkReviews?
            && CustomerReviewController.Lists(r.outcome.reviews, db, ReviewStore.OfProduct(productId, visible))
  {
    var rs := ReviewStore.GetReviewsByProductId(db, productId, visible);
    CustomerReviewController.MappedListing(rs, db, ReviewStore.OfProduct(productId, visible));
  }

  /** Any other request returns the review keyed by both ids, hidden or not, and NotFound when there is none. */
  lemma GetSingleReview(db: Db, customerId: Option<int>, productId: Option<int>, visible: Option<bool>)
    requires ReviewKeysUnique(db.reviews)
    requires !(CustomerReviewController.Positive(customerId) && !CustomerReviewController.Positive(productId))
    requires !(CustomerReviewController.Positive(productId) && !CustomerReviewController.Positive(customerId))
    ensures var r := Get(db, customerId, productId, visible);
            var c, p := CustomerReviewController.OrZero(customerId), CustomerReviewController.OrZero(productId);
            r.calls == [ReviewStore.GetReviewCall(c, p, true)]
            && (r.outcome == NotFound <==> !ReviewStore.ReviewExists(db, c, p))
            && forall k :: 0 <= k < |db.reviews| && HasKey(db.reviews[k], c, p) ==>
                 r.outcome == OkReview(ToReviewDto(db.reviews[k]))
  {
  }

  /** DELETE hides the review: HideReview is the one call, and the result is Ok exactly when it succeeds. */
  method Delete(repo: Repository.ReviewRepository, customerId: int, productId: int, conflict: bool)
    returns (outcome: Outcome)
    requires repo.Valid()
    modifies repo
    ensures repo.Valid()
    ensures repo.log == old(repo.log) + [ReviewStore.HideReviewCall(customerId, productId)]
    ensures var s := ReviewStore.HideReview(old(repo.State()), customerId, productId, conflict);
            repo.State() == s.db && repo.commits == old(repo.commits) + (if s.committed then 1 else 0)
            && (outcome == Ok <==> s.ok) && (outcome == Ok || outcome == NotFound)
  {
    var hidden := repo.HideReview(customerId, productId, conflict);
    outcome := if hidden then Ok else NotFound;
  }
}
