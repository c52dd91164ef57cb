/**
 * The customer-facing review endpoints
 * (ReviewService/Controllers/CustomerReviewController.cs). The caller's auth
 * id (the "sub" claim of the token) and the current time are inputs.
 *
 * The create-or-edit pipeline is stated twice: Decide gives the controller's
 * result and calls from whatever the repository answers (as the controller
 * tests' mocks answer), and CreateOrEdit runs the pipeline on the
 * store-backed repository and is proved to follow Decide with that
 * repository's answers.
 */
module CustomerReviewController {
  import opened Wrappers
  import opened ReviewData
  import opened ServiceModels
  import ReviewStore
  import ReviewStoreLemmas
  import Repository

  // ---------------------------------------------------------------------------
  // Validation
  // ---------------------------------------------------------------------------

  /** A review is accepted when its text is not null or empty and its rating is 0 to 5. */
  predicate ValidReview(dto: ReviewDto)
  {
    !NullOrEmpty(dto.reviewText) && 0 <= dto.rating && dto.rating <= 5
  }

  /** Both ends of the rating range are accepted; one past them, an empty text and a null text are not. */
  lemma ValidReviewBoundaries(dto: ReviewDto)
    requires !NullOrEmpty(dto.reviewText)
    ensures ValidReview(dto.(rating := 0)) && ValidReview(dto.(rating := 5))
    ensures !ValidReview(dto.(rating := -1)) && !ValidReview(dto.(rating := 6))
    ensures !ValidReview(dto.(reviewText := Some(""))) && !ValidReview(dto.(reviewText := None))
  {
  }

  /** TimeSpan.TicksPerDay: a tick is 100 nanoseconds. */
  const TicksPerDay: int := 864_000_000_000

  /** The oldest accepted review date lies this many ticks before now. */
  const SevenDays: int := 7 * TicksPerDay

  /**
   * A timestamp more than seven days old, or in the future, is replaced by
   * `now`; any other is kept. The comparison is strict, so a timestamp exactly
   * seven days old is kept.
   */
  function ValidateDate(orderDate: Ticks, now: Ticks): (r: Ticks)
    ensures now - SevenDays <= r <= now
    ensures r == orderDate <==> now - SevenDays <= orderDate <= now
    ensures r != orderDate ==> r == now
  {
    if now - orderDate > SevenDays || orderDate > now then now else orderDate
  }

  /** Sanitising a sanitised timestamp again, at the same time, changes nothing. */
  lemma ValidateDateIdempotent(orderDate: Ticks, now: Ticks)
    ensures ValidateDate(ValidateDate(orderDate, now), now) == ValidateDate(orderDate, now)
  {
  }

  /** Exactly seven days old is kept; one tick older, or one tick in the future, is replaced. */
  lemma ValidateDateBoundaries(now: Ticks)
    ensures ValidateDate(now - SevenDays, now) == now - SevenDays
    ensures ValidateDate(now - SevenDays - 1, now) == now
    ensures ValidateDate(now + 1, now) == now
    ensures ValidateDate(now, now) == now
  {
  }

  // ---------------------------------------------------------------------------
  // Reads
  // ---------------------------------------------------------------------------

  /** `id ?? 0` */
  function OrZero(id: Option<int>): int
  {
    if id.Some? then id.value else 0
  }

  /** `id != null && id > 0` */
  predicate Positive(id: Option<int>)
  {
    id.Some? && id.value > 0
  }

  /**
   * `ds` is the listing of filter `f`: the DTOs of the stored reviews that
   * pass `f`, one per stored row and in store order; so it holds the DTO of
   * every such review, and nothing else.
   */
  ghost predicate Lists(ds: seq<ReviewDto>, db: Db, f: ReviewStore.Filter)
  {
    ds == ToReviewDtos(ReviewStore.Where(db.reviews, f))
    && (forall d :: d in ds ==> exists x :: x in db.reviews && ReviewStore.Keeps(f, x) && d == ToReviewDto(x))
    && (forall x :: x in db.reviews && ReviewStore.Keeps(f, x) ==> ToReviewDto(x) in ds)
  }

  /** Mapping the scan of a filter gives the listing of that filter. */
  lemma MappedListing(rs: seq<Review>, db: Db, f: ReviewStore.Filter)
    requires rs == ReviewStore.Where(db.reviews, f)
    ensures Lists(ToReviewDtos(rs), db, f)
  {
    var ds := ToReviewDtos(rs);
    forall d | d in ds
      ensures exists x :: x in db.reviews && ReviewStore.Keeps(f, x) && d == ToReviewDto(x)
    {
      var k :| 0 <= k < |ds| && ds[k] == d;
      assert rs[k] in rs;
    }
    forall x | x in db.reviews && ReviewStore.Keeps(f, x)
      ensures ToReviewDto(x) in ds
    {
      var k :| 0 <= k < |rs| && rs[k] == x;
      assert ds[k] == ToReviewDto(x);
    }
  }

  /**
   * Get: a product-only request lists the product's visible reviews without
   * an auth check; every other request checks the auth id first, then lists
   * the customer's visible reviews (customer-only request) or reads the one
   * review keyed by both ids.
   */
  function Get(db: Db, customerId: Option<int>, productId: Option<int>, authId: NString): (r: Response)
    ensures 1 <= |r.calls| <= 2
    ensures !(Positive(productId) && !Positive(customerId)) ==>
              r.calls[0] == ReviewStore.ValidAuthIdCall(OrZero(customerId), authId)
              && (r.outcome == Forbid <==> !ReviewStore.ValidAuthId(db, OrZero(customerId), authId))
    ensures r.outcome == Forbid <==> |r.calls| == 1 && r.calls[0].ValidAuthIdCall?
  {
    if Positive(productId) && !Positive(customerId) then
      var p := productId.value;
      Response(OkReviews(ToReviewDtos(ReviewStore.GetReviewsByProductId(db, p, Some(true)))),
               [ReviewStore.GetReviewsByProductIdCall(p, Some(true))])
    else
      var auth := ReviewStore.ValidAuthIdCall(OrZero(customerId), authId);
      if !ReviewStore.ValidAuthId(db, OrZero(customerId), authId) then Response(Forbid, [auth])
      else if Positive(customerId) && !Positive(productId) then
        var c := customerId.value;
        Response(OkReviews(ToReviewDtos(ReviewStore.GetReviewsByCustomerId(db, c, Some(true)))),
                 [auth, ReviewStore.GetReviewsByCustomerIdCall(c, Some(true))])
      else
        var c, p := OrZero(customerId), OrZero(productId);
        var review := ReviewStore.GetReview(db, c, p, false);
        Response(if review.Some? then OkReview(ToReviewDto(review.value)) else NotFound,
                 [auth, ReviewStore.GetReviewCall(c, p, false)])
  }

  /** A product-only request lists exactly the product's visible reviews, with no auth check. */
  lemma GetProductReviews(db: Db, customerId: Option<int>, productId: int, authId: NString)
    requires productId > 0 && !Positive(customerId)
    ensures var r := Get(db, customerId, Some(productId), authId);
            r.calls == [ReviewStore.GetReviewsByProductIdCall(productId, Some(true))]
            && r.outcome.OkReviews?
            && Lists(r.outcome.reviews, db, ReviewStore.OfProduct(productId, Some(true)))
  {
    var rs := ReviewStore.GetReviewsByProductId(db, productId, Some(true));
    MappedListing(rs, db, ReviewStore.OfProduct(productId, Some(true)));
  }

  /** A customer-only request with a valid auth id lists exactly the customer's visible reviews. */
  lemma GetCustomerReviews(db: Db, customerId: int, productId: Option<int>, authId: NString)
    requires customerId > 0 && !Positive(productId)
    requires ReviewStore.ValidAuthId(db, customerId, authId)
    ensures var r := Get(db, Some(customerId), productId, authId);
            r.calls == [ReviewStore.ValidAuthIdCall(customerId, authId),
                        ReviewStore.GetReviewsByCustomerIdCall(customerId, Some(true))]
            && r.outcome.OkReviews?
            && Lists(r.outcome.reviews, db, ReviewStore.OfCustomer(customerId, Some(true)))
  {
    var rs := ReviewStore.GetReviewsByCustomerId(db, customerId, Some(true));
    MappedListing(rs, db, ReviewStore.OfCustomer(customerId, Some(true)));
  }

  /**
   * Any other request with a valid auth id reads the review keyed by both
   * ids as a non-staff caller: it is returned when it exists and is visible,
   * and NotFound is returned otherwise.
   */
  lemma GetSingleReview(db: Db, customerId: Option<int>, productId: Option<int>, authId: NString)
    requires ReviewKeysUnique(db.reviews)
    requires !(Positive(productId) && !Positive(customerId)) && !(Positive(customerId) && !Positive(productId))
    requires ReviewStore.ValidAuthId(db, OrZero(customerId), authId)
    ensures var r := Get(db, customerId, productId, authId);
            var c, p := OrZero(customerId), OrZero(productId);
            r.calls == [ReviewStore.ValidAuthIdCall(c, authId), ReviewStore.GetReviewCall(c, p, false)]
            && (r.outcome.OkReview? ==>
                  exists x :: x in db.reviews && HasKey(x, c, p) && x.visible && r.outcome.review == ToReviewDto(x))
            && (r.outcome == NotFound <==>
                  forall k :: 0 <= k < |db.reviews| && HasKey(db.reviews[k], c, p) ==> !db.reviews[k].visible)
  {
    var c, p := OrZero(customerId), OrZero(productId);
    var review := ReviewStore.GetReview(db, c, p, false);
    if review.None? {
      assert forall k :: 0 <= k < |db.reviews| && HasKey(db.reviews[k], c, p) ==> !db.reviews[k].visible;
    } else {
      var k :| 0 <= k < |db.reviews| && db.reviews[k] == review.value;
    }
  }

  // ---------------------------------------------------------------------------
  // Create and edit
  // ---------------------------------------------------------------------------

  /**
   * What the repository answers to the calls of the pipeline: ValidAuthId,
   * PurchaseExists, GetReview (non-staff), NewReview and EditReview. An
   * answer to a call the pipeline does not make is not read.
   */
  datatype Answers = Answers(
    validAuthId: bool,
    purchaseExists: bool,
    existing: Option<Review>,
    newReviewOk: bool,
    editReviewOk: bool)

  /** The result, the calls made, and the caller's DTO as the pipeline leaves it. */
  datatype Decision = Decision(outcome: Outcome, calls: seq<ReviewStore.Call>, submitted: ReviewDto)

  /**
   * The CreateOrEdit pipeline: auth check, field validation, purchase check,
   * the lookup of an existing review, the timestamp sanitised in place, then
   * an insert when there is no review, with an edit when the insert fails or
   * a review exists.
   */
  function Decide(dto: ReviewDto, authId: NString, now: Ticks, a: Answers): (d: Decision)
    ensures |d.calls| >= 1 && d.calls[0] == ReviewStore.ValidAuthIdCall(dto.customerId, authId)
    ensures d.outcome == Ok || d.outcome == Forbid || d.outcome == Unprocessable || d.outcome == NotFound
    ensures d.outcome == Ok ==> a.validAuthId && ValidReview(dto) && a.purchaseExists
    ensures d.submitted.(timeStamp := dto.timeStamp) == dto
    ensures forall k :: 0 <= k < |d.calls| && (d.calls[k].NewReviewCall? || d.calls[k].EditReviewCall?) ==>
              d.calls[k].review == Some(ToReviewModel(d.submitted))
              && now - SevenDays <= d.submitted.timeStamp <= now
  {
    var c, p := dto.customerId, dto.productId;
    var auth := ReviewStore.ValidAuthIdCall(c, authId);
    if !a.validAuthId then Decision(Forbid, [auth], dto)
    else if !ValidReview(dto) then Decision(Unprocessable, [auth], dto)
    else
      var checked := [auth, ReviewStore.PurchaseExistsCall(c, p)];
      if !a.purchaseExists then Decision(NotFound, checked, dto)
      else
        var read := checked + [ReviewStore.GetReviewCall(c, p, false)];
        if a.existing.Some? && !a.existing.value.visible then Decision(NotFound, read, dto)
        else
          var submitted := dto.(timeStamp := ValidateDate(dto.timeStamp, now));
          var model := Some(ToReviewModel(submitted));
          if a.existing.None? && a.newReviewOk then
            Decision(Ok, read + [ReviewStore.NewReviewCall(model)], submitted)
          else
            var tried := if a.existing.None? then [ReviewStore.NewReviewCall(model)] else [];
            Decision(if a.editReviewOk then Ok else NotFound, read + tried + [ReviewStore.EditReviewCall(model)], submitted)
  }

  /** An auth failure gives Forbid, and no other repository call is made. */
  lemma DecideAuthFirst(dto: ReviewDto, authId: NString, now: Ticks, a: Answers)
    requires !a.validAuthId
    ensures var d := Decide(dto, authId, now, a);
            d.outcome == Forbid && d.calls == [ReviewStore.ValidAuthIdCall(dto.customerId, authId)] && d.submitted == dto
  {
  }

  /** An invalid review of an authorised caller gives Unprocessable before the purchase is looked up. */
  lemma DecideValidatesBeforeLookup(dto: ReviewDto, authId: NString, now: Ticks, a: Answers)
    requires a.validAuthId && !ValidReview(dto)
    ensures var d := Decide(dto, authId, now, a);
            d.outcome == Unprocessable && |d.calls| == 1 && d.submitted == dto
  {
  }

  /** Without the purchase the result is NotFound, and no review is read or written. */
  lemma DecideNeedsPurchase(dto: ReviewDto, authId: NString, now: Ticks, a: Answers)
    requires a.validAuthId && ValidReview(dto) && !a.purchaseExists
    ensures var d := Decide(dto, authId, now, a);
            d.outcome == NotFound
            && d.calls == [ReviewStore.ValidAuthIdCall(dto.customerId, authId),
                           ReviewStore.PurchaseExistsCall(dto.customerId, dto.productId)]
  {
  }

  /** A hidden review, as the repository answers it, gives NotFound, and neither NewReview nor EditReview is called. */
  lemma DecideHiddenNotFound(dto: ReviewDto, authId: NString, now: Ticks, a: Answers)
    requires a.validAuthId && ValidReview(dto) && a.purchaseExists
    requires a.existing.Some? && !a.existing.value.visible
    ensures var d := Decide(dto, authId, now, a);
            d.outcome == NotFound && |d.calls| == 3 && d.calls[2].GetReviewCall?
            && forall k :: 0 <= k < |d.calls| ==> !d.calls[k].NewReviewCall? && !d.calls[k].EditReviewCall?
  {
  }

  /**
   * With no review, NewReview is called once with the sanitised DTO; its
   * success is Ok, and its failure falls through to one EditReview call,
   * whose result decides between Ok and NotFound.
   */
  lemma DecideCreates(dto: ReviewDto, authId: NString, now: Ticks, a: Answers)
    requires a.validAuthId && ValidReview(dto) && a.purchaseExists && a.existing.None?
    ensures var d := Decide(dto, authId, now, a);
            var model := Some(ToReviewModel(dto.(timeStamp := ValidateDate(dto.timeStamp, now))));
            d.submitted.timeStamp == ValidateDate(dto.timeStamp, now)
            && d.calls[3] == ReviewStore.NewReviewCall(model)
            && (a.newReviewOk ==> d.outcome == Ok && |d.calls| == 4)
            && (!a.newReviewOk ==> |d.calls| == 5 && d.calls[4] == ReviewStore.EditReviewCall(model)
                                   && (d.outcome == Ok <==> a.editReviewOk))
  {
  }

  /** With a visible review, only EditReview is called, and its result decides between Ok and NotFound. */
  lemma DecideEdits(dto: ReviewDto, authId: NString, now: Ticks, a: Answers)
    requires a.validAuthId && ValidReview(dto) && a.purchaseExists && a.existing.Some? && a.existing.value.visible
    ensures var d := Decide(dto, authId, now, a);
            var model := Some(ToReviewModel(dto.(timeStamp := ValidateDate(dto.timeStamp, now))));
            |d.calls| == 4 && d.calls[3] == ReviewStore.EditReviewCall(model)
            && (forall k :: 0 <= k < |d.calls| ==> !d.calls[k].NewReviewCall?)
            && (d.outcome == Ok <==> a.editReviewOk)
  {
  }

  /**
   * The store-backed repository's answers. NewReview on a model returns true
   * unless its commit conflicts; EditReview is asked of the unchanged tables,
   * because it is only reached when no insert happened.
   */
  function StoreAnswers(db: Db, dto: ReviewDto, authId: NString, now: Ticks, newConflict: bool, editConflict: bool): Answers
  {
    var model := ToReviewModel(dto.(timeStamp := ValidateDate(dto.timeStamp, now)));
    Answers(
      ReviewStore.ValidAuthId(db, dto.customerId, authId),
      ReviewStore.PurchaseExists(db, dto.customerId, dto.productId),
      ReviewStore.GetReview(db, dto.customerId, dto.productId, false),
      !newConflict,
      ReviewStore.EditReview(db, Some(model), editConflict).ok)
  }

  /** Whether the pipeline passes its three guards against the store and goes on to write. */
  predicate ReachesWrite(db: Db, dto: ReviewDto, authId: NString)
  {
    ReviewStore.ValidAuthId(db, dto.customerId, authId) && ValidReview(dto)
    && ReviewStore.PurchaseExists(db, dto.customerId, dto.productId)
  }

  /**
   * The path on which the pipeline reaches NewReview although a review with
   * the same key is stored: GetReview(staff: false) does not return a
   * hidden review, so the hidden-review check cannot fire against the store.
   */
  ghost predicate InsertsOverHidden(db: Db, dto: ReviewDto, authId: NString)
  {
    ReachesWrite(db, dto, authId)
    && ReviewStore.ReviewExists(db, dto.customerId, dto.productId)
    && ReviewStore.GetReview(db, dto.customerId, dto.productId, false).None?
  }

  /** The store never answers GetReview(staff: false) with a hidden review. */
  lemma StoreNeverAnswersHidden(db: Db, dto: ReviewDto, authId: NString, now: Ticks, newConflict: bool, editConflict: bool)
    ensures var a := StoreAnswers(db, dto, authId, now, newConflict, editConflict);
            a.existing.Some? ==> a.existing.value.visible
  {
  }

  /**
   * Against the store, an authorised, valid submission for a purchased
   * product whose review is hidden is sent to NewReview, which would add a
   * second row under an existing key, instead of being answered NotFound.
   */
  lemma HiddenReviewReachesNewReview(db: Db, dto: ReviewDto, authId: NString, now: Ticks, newConflict: bool, editConflict: bool)
    requires ReviewKeysUnique(db.reviews)
    requires ReviewStore.ValidAuthId(db, dto.customerId, authId) && ValidReview(dto)
    requires ReviewStore.PurchaseExists(db, dto.customerId, dto.productId)
    requires exists k :: 0 <= k < |db.reviews| && HasKey(db.reviews[k], dto.customerId, dto.productId) && !db.reviews[k].visible
    ensures InsertsOverHidden(db, dto, authId)
    ensures var d := Decide(dto, authId, now, StoreAnswers(db, dto, authId, now, newConflict, editConflict));
            d.outcome != Forbid && d.outcome != Unprocessable
            && exists k :: 0 <= k < |d.calls| && d.calls[k].NewReviewCall?
  {
    var k :| 0 <= k < |db.reviews| && HasKey(db.reviews[k], dto.customerId, dto.productId) && !db.reviews[k].visible;
    assert ReviewStore.GetReview(db, dto.customerId, dto.productId, false).None?;
    var d := Decide(dto, authId, now, StoreAnswers(db, dto, authId, now, newConflict, editConflict));
    assert d.calls[3].NewReviewCall?;
  }

  /**
   * The tables after the pipeline has run against the store: unchanged when a
   * guard stops it; with the sanitised review inserted when there was none
   * and the insert commits; otherwise as EditReview leaves them (unchanged
   * again when the insert was tried and conflicted, as no row has the key).
   */
  function CreateOrEditEffect(db: Db, dto: ReviewDto, authId: NString, now: Ticks, newConflict: bool, editConflict: bool): Db
  {
    var model := ToReviewModel(dto.(timeStamp := ValidateDate(dto.timeStamp, now)));
    if !ReachesWrite(db, dto, authId) then db
    else if !ReviewStore.ReviewExists(db, dto.customerId, dto.productId) && !newConflict then
      db.(reviews := db.reviews + [model.(visible := true)])
    else ReviewStore.EditReview(db, Some(model), editConflict).db
  }

  /** The pipeline keeps the key invariants of the tables. */
  lemma CreateOrEditKeepsKeys(db: Db, dto: ReviewDto, authId: NString, now: Ticks, newConflict: bool, editConflict: bool)
    requires Keyed(db)
    requires !InsertsOverHidden(db, dto, authId)
    ensures Keyed(CreateOrEditEffect(db, dto, authId, now, newConflict, editConflict))
  {
    var model := ToReviewModel(dto.(timeStamp := ValidateDate(dto.timeStamp, now)));
    if ReachesWrite(db, dto, authId) {
      if !ReviewStore.ReviewExists(db, dto.customerId, dto.productId) && !newConflict {
        assert CreateOrEditEffect(db, dto, authId, now, newConflict, editConflict)
               == ReviewStore.NewReview(db, Some(model), false).db;
      } else {
        ReviewStoreLemmas.UpdateWhereKeepsKeys(db.reviews, model.customerId, model.productId, ReviewStore.SetRating(model.rating));
      }
    }
  }

  /** The pipeline only writes a review after finding the purchase, so it keeps every review backed by a purchase. */
  lemma CreateOrEditKeepsEntitlement(db: Db, dto: ReviewDto, authId: NString, now: Ticks, newConflict: bool, editConflict: bool)
    requires Keyed(db) && Entitled(db)
    requires !InsertsOverHidden(db, dto, authId)
    ensures Entitled(CreateOrEditEffect(db, dto, authId, now, newConflict, editConflict))
  {
    var model := ToReviewModel(dto.(timeStamp := ValidateDate(dto.timeStamp, now)));
    if ReachesWrite(db, dto, authId) {
      if !ReviewStore.ReviewExists(db, dto.customerId, dto.productId) && !newConflict {
        assert CreateOrEditEffect(db, dto, authId, now, newConflict, editConflict)
               == ReviewStore.NewReview(db, Some(model), false).db;
        ReviewStoreLemmas.NewReviewKeepsEntitlement(db, model, false);
      } else {
        ReviewStoreLemmas.EditKeepsEntitlement(db, Some(model), editConflict);
      }
    }
  }

  /**
   * The calls of the read and write step against the store: GetReview, then
   * NewReview when no review is stored, then EditReview unless the insert
   * committed.
   */
  function SaveCalls(db: Db, model: Review, newConflict: bool): (calls: seq<ReviewStore.Call>)
    ensures 2 <= |calls| <= 3 && calls[0] == ReviewStore.GetReviewCall(model.customerId, model.productId, false)
  {
    var found := ReviewStore.ReviewExists(db, model.customerId, model.productId);
    [ReviewStore.GetReviewCall(model.customerId, model.productId, false)]
    + (if found then [] else [ReviewStore.NewReviewCall(Some(model))])
    + (if !found && !newConflict then [] else [ReviewStore.EditReviewCall(Some(model))])
  }

  /** Calls logged one at a time and then as a block are the log extended by all of them. */
  lemma LoggedInTurn(log: seq<ReviewStore.Call>, x: ReviewStore.Call, y: ReviewStore.Call, rest: seq<ReviewStore.Call>)
    ensures log + [x] + [y] + rest == log + ([x, y] + rest)
    ensures log + [x] + [y] == log + [x, y]
  {
  }

  /**
   * When a guard stops the pipeline against the store, the tables are kept:
   * an auth failure is Forbid after one call, an invalid review is
   * Unprocessable after one call, and a missing purchase is NotFound after
   * the purchase lookup.
   */
  lemma DecideStopsOnStore(db: Db, dto: ReviewDto, authId: NString, now: Ticks, newConflict: bool, editConflict: bool)
    requires !ReachesWrite(db, dto, authId)
    ensures var auth := ReviewStore.ValidAuthIdCall(dto.customerId, authId);
            var d := Decide(dto, authId, now, StoreAnswers(db, dto, authId, now, newConflict, editConflict));
            d.submitted == dto && CreateOrEditEffect(db, dto, authId, now, newConflict, editConflict) == db
            && (!ReviewStore.ValidAuthId(db, dto.customerId, authId) ==> d.outcome == Forbid && d.calls == [auth])
            && (ReviewStore.ValidAuthId(db, dto.customerId, authId) && !ValidReview(dto) ==>
                  d.outcome == Unprocessable && d.calls == [auth])
            && (ReviewStore.ValidAuthId(db, dto.customerId, authId) && ValidReview(dto) ==>
                  d.outcome == NotFound && d.calls == [auth, ReviewStore.PurchaseExistsCall(dto.customerId, dto.productId)])
  {
  }

  /**
   * Once the guards pass against the store, the pipeline reads the review
   * and writes: Decide's calls, result and effect are those of the write
   * step, NewReview when no review is stored and EditReview otherwise or
   * after a conflicting insert.
   */
  lemma DecideWritesOnStore(db: Db, dto: ReviewDto, authId: NString, now: Ticks, newConflict: bool, editConflict: bool)
    requires ReachesWrite(db, dto, authId) && !InsertsOverHidden(db, dto, authId)
    ensures var submitted := dto.(timeStamp := ValidateDate(dto.timeStamp, now));
            var model := ToReviewModel(submitted);
            var found := ReviewStore.ReviewExists(db, dto.customerId, dto.productId);
            var edit := ReviewStore.EditReview(db, Some(model), editConflict);
            var d := Decide(dto, authId, now, StoreAnswers(db, dto, authId, now, newConflict, editConflict));
            var effect := CreateOrEditEffect(db, dto, authId, now, newConflict, editConflict);
            d.submitted == submitted
            && d.calls == [ReviewStore.ValidAuthIdCall(dto.customerId, authId),
                           ReviewStore.PurchaseExistsCall(dto.customerId, dto.productId)]
                          + SaveCalls(db, model, newConflict)
            && if !found && !newConflict then
                 d.outcome == Ok && effect == db.(reviews := db.reviews + [model.(visible := true)])
               else
                 (d.outcome == Ok <==> edit.ok) && (d.outcome == Ok || d.outcome == NotFound) && effect == edit.db
  {
    var review := ReviewStore.GetReview(db, dto.customerId, dto.productId, false);
    assert review.Some? <==> ReviewStore.ReviewExists(db, dto.customerId, dto.productId);
    assert review.None? || review.value.visible;
  }

  /**
   * CreateOrEdit against the store-backed repository. The hidden-review path,
   * on which the database would reject a duplicate key, is excluded. The
   * calls made are those of Decide, and exactly one commit is made when the
   * pipeline reaches a write: either the insert, or the edit of a stored row
   * (after a conflicting insert EditReview finds no row and does not commit).
   */
  method CreateOrEdit(repo: Repository.ReviewRepository, reviewDto: ReviewDto, authId: NString, now: Ticks,
                      newConflict: bool, editConflict: bool)
    returns (outcome: Outcome, submitted: ReviewDto)
    requires repo.Valid()
    requires !InsertsOverHidden(repo.State(), reviewDto, authId)
    modifies repo
    ensures repo.Valid()
    ensures var d := Decide(reviewDto, authId, now, StoreAnswers(old(repo.State()), reviewDto, authId, now, newConflict, editConflict));
            outcome == d.outcome && submitted == d.submitted && repo.log == old(repo.log) + d.calls
    ensures repo.State() == CreateOrEditEffect(old(repo.State()), reviewDto, authId, now, newConflict, editConflict)
    ensures repo.commits == old(repo.commits) + if ReachesWrite(old(repo.State()), reviewDto, authId) then 1 else 0
  {
    var c, p := reviewDto.customerId, reviewDto.productId;
    submitted := reviewDto;
    ghost var db := repo.State();
    ghost var log := repo.log;
    var valid := repo.ValidAuthId(c, authId);
    if !valid {
      DecideStopsOnStore(db, reviewDto, authId, now, newConflict, editConflict);
      return Forbid, submitted;
    }
    if !ValidReview(reviewDto) {
      DecideStopsOnStore(db, reviewDto, authId, now, newConflict, editConflict);
      return Unprocessable, submitted;
    }
    var purchased := repo.PurchaseExists(c, p);
    if !purchased {
      DecideStopsOnStore(db, reviewDto, authId, now, newConflict, editConflict);
      LoggedInTurn(log, ReviewStore.ValidAuthIdCall(c, authId), ReviewStore.PurchaseExistsCall(c, p), []);
      return NotFound, submitted;
    }
    DecideWritesOnStore(db, reviewDto, authId, now, newConflict, editConflict);
    submitted := reviewDto.(timeStamp := ValidateDate(reviewDto.timeStamp, now));
    var model := ToReviewModel(submitted);
    var ok := Save(repo, model, newConflict, editConflict);
    LoggedInTurn(log, ReviewStore.ValidAuthIdCall(c, authId), ReviewStore.PurchaseExistsCall(c, p),
                 SaveCalls(db, model, newConflict));
    outcome := if ok then Ok else NotFound;
  }

  /**
   * The read and write step of the pipeline: GetReview as a customer, then
   * NewReview when no review was found, then EditReview when there was one
   * or the insert did not commit. It commits exactly once.
   */
  method Save(repo: Repository.ReviewRepository, model: Review, newConflict: bool, editConflict: bool)
    returns (ok: bool)
    requires repo.Valid()
    requires !(ReviewStore.ReviewExists(repo.State(), model.customerId, model.productId)
               && ReviewStore.GetReview(repo.State(), model.customerId, model.productId, false).None?)
    modifies repo
    ensures repo.Valid()
    ensures repo.commits == old(repo.commits) + 1
    ensures repo.log == old(repo.log) + SaveCalls(old(repo.State()), model, newConflict)
    ensures var db := old(repo.State());
            var found := ReviewStore.ReviewExists(db, model.customerId, model.productId);
            var edit := ReviewStore.EditReview(db, Some(model), editConflict);
            if !found && !newConflict then
              ok && repo.State() == db.(reviews := db.reviews + [model.(visible := true)])
            else
              ok == edit.ok && repo.State() == edit.db
  {
    var review := repo.GetReview(model.customerId, model.productId, false);
    assert review.Some? <==> ReviewStore.ReviewExists(repo.State(), model.customerId, model.productId);
    if review.None? {
      var created := repo.NewReview(Some(model), newConflict);
      if created {
        return true;
      }
    }
    ok := repo.EditReview(Some(model), editConflict);
  }

  /** POST: the shared create-or-edit pipeline. */
  method Create(repo: Repository.ReviewRepository, reviewDto: ReviewDto, authId: NString, now: Ticks,
                newConflict: bool, editConflict: bool)
    returns (outcome: Outcome, submitted: ReviewDto)
    requires repo.Valid()
    requires !InsertsOverHidden(repo.State(), reviewDto, authId)
    modifies repo
    ensures repo.Valid()
    ensures var d := Decide(reviewDto, authId, now, StoreAnswers(old(repo.State()), reviewDto, authId, now, newConflict, editConflict));
            outcome == d.outcome && submitted == d.submitted && repo.log == old(repo.log) + d.calls
    ensures repo.State() == CreateOrEditEffect(old(repo.State()), reviewDto, authId, now, newConflict, editConflict)
    ensures repo.commits == old(repo.commits) + if ReachesWrite(old(repo.State()), reviewDto, authId) then 1 else 0
  {
    outcome, submitted := CreateOrEdit(repo, reviewDto, authId, now, newConflict, editConflict);
  }

  /** PUT: the same pipeline as POST. */
  method Edit(repo: Repository.ReviewRepository, reviewDto: ReviewDto, authId: NString, now: Ticks,
              newConflict: bool, editConflict: bool)
    returns (outcome: Outcome, submitted: ReviewDto)
    requires repo.Valid()
    requires !InsertsOverHidden(repo.State(), reviewDto, authId)
    modifies repo
    ensures repo.Valid()
    ensures var d := Decide(reviewDto, authId, now, StoreAnswers(old(repo.State()), reviewDto, authId, now, newConflict, editConflict));
            outcome == d.outcome && submitted == d.submitted && repo.log == old(repo.log) + d.calls
    ensures repo.State() == CreateOrEditEffect(old(repo.State()), reviewDto, authId, now, newConflict, editConflict)
    ensures repo.commits == old(repo.commits) + if ReachesWrite(old(repo.State()), reviewDto, authId) then 1 else 0
  {
    outcome, submitted := CreateOrEdit(repo, reviewDto, authId, now, newConflict, editConflict);
  }

  // ---------------------------------------------------------------------------
  // Delete
  // ---------------------------------------------------------------------------

  /** DELETE: an auth failure is Forbid without a delete; otherwise Ok exactly when DeleteReview succeeds. */
  method Delete(repo: Repository.ReviewRepository, customerId: int, productId: int, authId: NString, conflict: bool)
    returns (outcome: Outcome)
    requires repo.Valid()
    modifies repo
    ensures repo.Valid()
    ensures var db := old(repo.State());
            var auth := ReviewStore.ValidAuthIdCall(customerId, authId);
            if !ReviewStore.ValidAuthId(db, customerId, authId) then
              outcome == Forbid && repo.log == old(repo.log) + [auth]
              && repo.State() == db && repo.commits == old(repo.commits)
            else
              var s := ReviewStore.DeleteReview(db, customerId, productId, conflict);
              repo.log == old(repo.log) + [auth, ReviewStore.DeleteReviewCall(customerId, productId)]
              && repo.State() == s.db && repo.commits == old(repo.commits) + (if s.committed then 1 else 0)
              && (outcome == Ok <==> s.ok) && (outcome == Ok || outcome == NotFound)
  {
    var valid := repo.ValidAuthId(customerId, authId);
    if !valid {
      return Forbid;
    }
    var deleted := repo.DeleteReview(customerId, productId, conflict);
    outcome := if deleted then Ok else NotFound;
  }
}
