/**
 * The endpoint through which the ordering service reports purchases
 * (ReviewService/Controllers/ProductController.cs).
 */
module ProductController {
  import opened Wrappers
  import opened ReviewData
  import opened ServiceModels
  import ReviewStore
  import Repository

  /** A batch is accepted when it is present, names a positive customer with an auth id, and orders something. */
  predicate ValidPurchases(purchases: Option<PurchaseDto>)
  {
    purchases.Some?
    && purchases.value.customerId > 0
    && !NullOrEmpty(purchases.value.customerAuthId)
    && purchases.value.orderedItems.Some?
    && |purchases.value.orderedItems.value| > 0
  }

  /** Each condition of ValidPurchases is needed: dropping any one of them rejects the batch. */
  lemma ValidPurchasesNeedsEach(dto: PurchaseDto)
    requires ValidPurchases(Some(dto))
    ensures !ValidPurchases(None)
    ensures !ValidPurchases(Some(dto.(customerId := 0)))
    ensures !ValidPurchases(Some(dto.(customerAuthId := None))) && !ValidPurchases(Some(dto.(customerAuthId := Some(""))))
    ensures !ValidPurchases(Some(dto.(orderedItems := None))) && !ValidPurchases(Some(dto.(orderedItems := Some([]))))
  {
  }

  /**
   * POST: an invalid batch is Unprocessable and NewPurchases is not called;
   * a valid one is passed on, mapped field by field, to one NewPurchases
   * call, and the result is Ok exactly when that call succeeds.
   */
  method Post(repo: Repository.ReviewRepository, purchases: Option<PurchaseDto>, conflict: bool)
    returns (outcome: Outcome)
    requires repo.Valid()
    requires ValidPurchases(purchases) ==>
               ReviewStore.AddsDistinct(repo.purchases, purchases.value.customerId, purchases.value.orderedItems.value)
    modifies repo
    ensures repo.Valid()
    ensures !ValidPurchases(purchases) ==>
              outcome == Unprocessable && repo.log == old(repo.log)
              && repo.State() == old(repo.State()) && repo.commits == old(repo.commits)
    ensures ValidPurchases(purchases) ==>
              var model := ToPurchaseModel(purchases.value);
              var s := ReviewStore.NewPurchases(old(repo.State()), model, conflict);
              repo.log == old(repo.log) + [ReviewStore.NewPurchasesCall(model)]
              && repo.State() == s.db && repo.commits == old(repo.commits) + 1
              && (outcome == Ok <==> s.ok) && (outcome == Ok || outcome == NotFound)
  {
    if !ValidPurchases(purchases) {
      return Unprocessable;
    }
    var model := ToPurchaseModel(purchases.value);
    var added := repo.NewPurchases(model, conflict);
    outcome := if added then Ok else NotFound;
  }
}
