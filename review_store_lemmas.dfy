/**
 * Properties of the store that relate several repository calls: reads after
 * writes, idempotence, and the invariants every mutator keeps.
 */
module ReviewStoreLemmas {
  import opened Wrappers
  import opened ReviewData
  import opened ReviewStore

  lemma UpdateWhereKeepsKeys(s: seq<Review>, customerId: int, productId: int, ch: Change)
    requires ReviewKeysUnique(s)
    ensures ReviewKeysUnique(UpdateWhere(s, customerId, productId, ch))
    ensures forall x :: x in UpdateWhere(s, customerId, productId, ch) ==>
              exists k :: 0 <= k < |s| && HasKey(s[k], x.customerId, x.productId)
  {
    var r := UpdateWhere(s, customerId, productId, ch);
    forall x | x in r
      ensures exists k :: 0 <= k < |s| && HasKey(s[k], x.customerId, x.productId)
    {
      var k :| 0 <= k < |r| && r[k] == x;
      assert HasKey(s[k], x.customerId, x.productId);
    }
  }

  /** After a delete the review is gone for every reader, and deleting it again fails without a commit. */
  lemma DeleteThenAbsent(db: Db, customerId: int, productId: int)
    requires ReviewKeysUnique(db.reviews)
    requires ReviewExists(db, customerId, productId)
    ensures var s := DeleteReview(db, customerId, productId, false);
            s.ok
            && GetReview(s.db, customerId, productId, true).None?
            && GetReview(s.db, customerId, productId, false).None?
            && DeleteReview(s.db, customerId, productId, false) == Step(s.db, false, false)
  {
  }

  /** Hiding is idempotent: hiding a hidden review succeeds again and changes nothing. */
  lemma HideIsIdempotent(db: Db, customerId: int, productId: int)
    requires ReviewExists(db, customerId, productId)
    ensures var h := HideReview(db, customerId, productId, false);
            h.ok && HideReview(h.db, customerId, productId, false) == Step(h.db, true, true)
  {
    var h := HideReview(db, customerId, productId, false);
    var i := FirstIndex(db.reviews, customerId, productId).value;
    assert HasKey(h.db.reviews[i], customerId, productId);
    var again := UpdateWhere(h.db.reviews, customerId, productId, Hide);
    forall k | 0 <= k < |again|
      ensures again[k] == h.db.reviews[k]
    {
      if HasKey(h.db.reviews[k], customerId, productId) {
        assert HasKey(db.reviews[k], customerId, productId);
      }
    }
    assert again == h.db.reviews;
  }

  /** After a hide only staff can read the review, and they read its content unchanged but hidden. */
  lemma HiddenReviewReadableByStaffOnly(db: Db, customerId: int, productId: int)
    requires ReviewKeysUnique(db.reviews)
    requires ReviewExists(db, customerId, productId)
    ensures var h := HideReview(db, customerId, productId, false);
            var i := FirstIndex(db.reviews, customerId, productId).value;
            GetReview(h.db, customerId, productId, false).None?
            && GetReview(h.db, customerId, productId, true) == Some(db.reviews[i].(visible := false))
  {
    var h := HideReview(db, customerId, productId, false);
    var i := FirstIndex(db.reviews, customerId, productId).value;
    UpdateWhereKeepsKeys(db.reviews, customerId, productId, Hide);
    assert HasKey(h.db.reviews[i], customerId, productId);
  }

  /** A successful edit changes the stored rating only, and every reader who could see the review sees that. */
  lemma EditChangesRatingOnly(db: Db, model: Review)
    requires ReviewKeysUnique(db.reviews)
    requires ReviewExists(db, model.customerId, model.productId)
    ensures var e := EditReview(db, Some(model), false);
            var i := FirstIndex(db.reviews, model.customerId, model.productId).value;
            e.ok
            && GetReview(e.db, model.customerId, model.productId, true) == Some(db.reviews[i].(rating := model.rating))
  {
    var e := EditReview(db, Some(model), false);
    var i := FirstIndex(db.reviews, model.customerId, model.productId).value;
    UpdateWhereKeepsKeys(db.reviews, model.customerId, model.productId, SetRating(model.rating));
    assert HasKey(e.db.reviews[i], model.customerId, model.productId);
  }

  /** A sequence without members is empty. */
  lemma NoMembersMeansEmpty<T>(s: seq<T>)
    ensures (forall x :: x !in s) ==> s == []
  {
    if s != [] {
      assert s[0] in s;
    }
  }

  /**
   * Resubmitting the same batch adds no row: the second call has nothing
   * pending, yet it still commits and returns true.
   */
  lemma ResubmittedBatchAddsNothing(db: Db, purchases: PurchaseModel)
    requires purchases.orderedItems.Some?
    requires AddsDistinct(db.purchases, purchases.customerId, purchases.orderedItems.value)
    ensures var first := NewPurchases(db, purchases, false);
            var second := NewPurchases(first.db, purchases, false);
            PendingAdds(first.db.purchases, purchases.customerId, purchases.orderedItems.value) == []
            && second == Step(first.db, true, true)
  {
    var first := NewPurchases(db, purchases, false);
    var pending := PendingAdds(first.db.purchases, purchases.customerId, purchases.orderedItems.value);
    NoMembersMeansEmpty(pending);
    assert (set x | x in pending) == {};
    assert first.db.purchases + {} == first.db.purchases;
  }

  /**
   * The existence check of NewPurchases reads the stored purchases only, so
   * a product that is new and ordered twice in one batch is added twice:
   * such a batch is outside AddsDistinct.
   */
  lemma InBatchDuplicateIsAddedTwice(stored: set<Purchase>, customerId: int, productId: int)
    requires (customerId, productId) !in stored
    ensures PendingAdds(stored, customerId, [productId, productId]) == [(customerId, productId), (customerId, productId)]
    ensures !AddsDistinct(stored, customerId, [productId, productId])
  {
    assert [productId, productId][..1] == [productId];
    assert [productId][..0] == [];
    assert PendingAdds(stored, customerId, []) == [];
    assert PendingAdds(stored, customerId, [productId]) == [(customerId, productId)];
  }

  /** Anonymising twice succeeds both times and leaves the same row as anonymising once. */
  lemma AnonymiseIsIdempotent(db: Db, customerId: int)
    requires customerId in db.customers
    ensures var once := AnonymiseCustomer(db, customerId, false);
            var twice := AnonymiseCustomer(once.db, customerId, false);
            once.ok && twice.ok && twice.db == once.db
            && once.db.customers[customerId].customerName == Some(AnonymisedName)
  {
    var once := AnonymiseCustomer(db, customerId, false);
    assert once.db.customers[customerId := once.db.customers[customerId].(customerName := Some(AnonymisedName))]
           == once.db.customers;
  }

  /**
   * Anonymisation is not final in the repository: EditCustomer replaces an
   * anonymised name like any other, given a different non-empty name.
   */
  lemma EditCustomerRenamesAnonymised(db: Db, customerId: int, name: string)
    requires CustomersKeyed(db.customers) && customerId in db.customers
    requires name != "" && name != AnonymisedName
    ensures var anon := AnonymiseCustomer(db, customerId, false);
            var edited := EditCustomer(anon.db, Some(anon.db.customers[customerId].(customerName := Some(name))), false);
            edited.ok && edited.committed && edited.db.customers[customerId].customerName == Some(name)
  {
    var anon := AnonymiseCustomer(db, customerId, false);
    var row := anon.db.customers[customerId];
    assert row.customerName == Some(AnonymisedName);
    assert Renames(row, row.(customerName := Some(name)));
  }

  /**
   * No repository operation removes a purchase. Each operation has its own
   * arguments; only the inserts carry the preconditions they need.
   */
  lemma PurchasesOnlyGrow(db: Db, customerId: int, productId: int, conflict: bool,
                          newReview: Option<Review>, editedReview: Option<Review>,
                          newCustomer: Option<Customer>, editedCustomer: Option<Customer>, batch: PurchaseModel)
    requires ReviewKeysUnique(db.reviews)
    requires newReview.Some? ==> !ReviewExists(db, newReview.value.customerId, newReview.value.productId)
    requires newCustomer.Some? ==> newCustomer.value.customerId !in db.customers
    requires batch.orderedItems.Some? && AddsDistinct(db.purchases, batch.customerId, batch.orderedItems.value)
    ensures db.purchases <= DeleteReview(db, customerId, productId, conflict).db.purchases
    ensures db.purchases <= HideReview(db, customerId, productId, conflict).db.purchases
    ensures db.purchases <= EditReview(db, editedReview, conflict).db.purchases
    ensures db.purchases <= NewReview(db, newReview, conflict).db.purchases
    ensures db.purchases <= NewPurchases(db, batch, conflict).db.purchases
    ensures db.purchases <= NewCustomer(db, newCustomer, conflict).db.purchases
    ensures db.purchases <= EditCustomer(db, editedCustomer, conflict).db.purchases
    ensures db.purchases <= AnonymiseCustomer(db, customerId, conflict).db.purchases
  {
  }

  /** Changing fields of the keyed rows keeps every review backed by a purchase. */
  lemma UpdateWhereKeepsEntitlement(db: Db, customerId: int, productId: int, ch: Change)
    requires Entitled(db)
    ensures Entitled(db.(reviews := UpdateWhere(db.reviews, customerId, productId, ch)))
  {
    var r := UpdateWhere(db.reviews, customerId, productId, ch);
    forall x | x in r
      ensures (x.customerId, x.productId) in db.purchases
    {
      var k :| 0 <= k < |r| && r[k] == x;
      assert db.reviews[k] in db.reviews;
    }
  }

  /** Deleting a review keeps every review backed by a purchase. */
  lemma DeleteKeepsEntitlement(db: Db, customerId: int, productId: int, conflict: bool)
    requires Entitled(db) && ReviewKeysUnique(db.reviews)
    ensures Entitled(DeleteReview(db, customerId, productId, conflict).db)
  {
  }

  /** Hiding a review keeps every review backed by a purchase. */
  lemma HideKeepsEntitlement(db: Db, customerId: int, productId: int, conflict: bool)
    requires Entitled(db)
    ensures Entitled(HideReview(db, customerId, productId, conflict).db)
  {
    UpdateWhereKeepsEntitlement(db, customerId, productId, Hide);
  }

  /** Editing a review keeps every review backed by a purchase. */
  lemma EditKeepsEntitlement(db: Db, review: Option<Review>, conflict: bool)
    requires Entitled(db)
    ensures Entitled(EditReview(db, review, conflict).db)
  {
    if review.Some? {
      UpdateWhereKeepsEntitlement(db, review.value.customerId, review.value.productId, SetRating(review.value.rating));
    }
  }

  /** A new review keeps "every review is backed by a purchase" when its own purchase exists. */
  lemma NewReviewKeepsEntitlement(db: Db, review: Review, conflict: bool)
    requires Entitled(db)
    requires !ReviewExists(db, review.customerId, review.productId)
    requires PurchaseExists(db, review.customerId, review.productId)
    ensures Entitled(NewReview(db, Some(review), conflict).db)
  {
  }

  /** The purchase and customer mutators keep "every review is backed by a purchase". */
  lemma OtherMutatorsKeepEntitlement(db: Db, customerId: int, customer: Option<Customer>, batch: PurchaseModel, conflict: bool)
    requires Entitled(db)
    requires batch.orderedItems.Some? && AddsDistinct(db.purchases, batch.customerId, batch.orderedItems.value)
    ensures Entitled(NewPurchases(db, batch, conflict).db)
    ensures Entitled(AnonymiseCustomer(db, customerId, conflict).db)
    ensures Entitled(EditCustomer(db, customer, conflict).db)
    ensures customer.Some? && customer.value.customerId !in db.customers ==> Entitled(NewCustomer(db, customer, conflict).db)
  {
  }
}
