/**
 * The store-backed repository (ReviewRepository/ReviewRepository.cs) as an
 * object over the three tables of its database context. Each mutator finds
 * its row, changes it, and commits once; it is proved to have exactly the
 * effect that the corresponding ReviewStore function describes. Queries
 * answer the ReviewStore functions applied to State(). Every method, query
 * or mutator, appends its call to the ghost log.
 */
module Repository {
  import opened Wrappers
  import opened ReviewData
  import ReviewStore

  class ReviewRepository {
    var reviews: seq<Review>
    var purchases: set<Purchase>
    var customers: map<int, Customer>
    /** The number of SaveChangesAsync calls made so far. */
    ghost var commits: nat
    /** The calls made on this repository so far, in order, with their arguments. */
    ghost var log: seq<ReviewStore.Call>

    /** The content of the three tables. */
    function State(): Db
      reads this
    {
      Db(reviews, purchases, customers)
    }

    /** The key constraints of the database context hold. */
    ghost predicate Valid()
      reads this
    {
      Keyed(State())
    }

    /** A repository over a database context whose tables hold `context`. */
    constructor (context: Db)
      requires Keyed(context)
      ensures Valid() && State() == context && commits == 0 && log == []
    {
      reviews := context.reviews;
      purchases := context.purchases;
      customers := context.customers;
      commits := 0;
      log := [];
    }

    /** ValidAuthId: the answer the store gives, with nothing changed. */
    method ValidAuthId(customerId: int, authId: NString) returns (r: bool)
      modifies this
      ensures r == ReviewStore.ValidAuthId(State(), customerId, authId)
      ensures State() == old(State()) && commits == old(commits)
      ensures log == old(log) + [ReviewStore.ValidAuthIdCall(customerId, authId)]
    {
      log := log + [ReviewStore.ValidAuthIdCall(customerId, authId)];
      r := ReviewStore.ValidAuthId(State(), customerId, authId);
    }

    /** PurchaseExists: the answer the store gives, with nothing changed. */
    method PurchaseExists(customerId: int, productId: int) returns (r: bool)
      modifies this
      ensures r == ReviewStore.PurchaseExists(State(), customerId, productId)
      ensures State() == old(State()) && commits == old(commits)
      ensures log == old(log) + [ReviewStore.PurchaseExistsCall(customerId, productId)]
    {
      log := log + [ReviewStore.PurchaseExistsCall(customerId, productId)];
      r := ReviewStore.PurchaseExists(State(), customerId, productId);
    }

    /** GetReview: the answer the store gives, with nothing changed. */
    method GetReview(customerId: int, productId: int, staff: bool) returns (r: Option<Review>)
      modifies this
      ensures r == ReviewStore.GetReview(State(), customerId, productId, staff)
      ensures State() == old(State()) && commits == old(commits)
      ensures log == old(log) + [ReviewStore.GetReviewCall(customerId, productId, staff)]
    {
      log := log + [ReviewStore.GetReviewCall(customerId, productId, staff)];
      r := ReviewStore.GetReview(State(), customerId, productId, staff);
    }

    /** GetReviewsByCustomerId: the answer the store gives, with nothing changed. */
    method GetReviewsByCustomerId(customerId: int, visible: Option<bool>) returns (r: seq<Review>)
      modifies this
      ensures r == ReviewStore.GetReviewsByCustomerId(State(), customerId, visible)
      ensures State() == old(State()) && commits == old(commits)
      ensures log == old(log) + [ReviewStore.GetReviewsByCustomerIdCall(customerId, visible)]
    {
      log := log + [ReviewStore.GetReviewsByCustomerIdCall(customerId, visible)];
      r := ReviewStore.GetReviewsByCustomerId(State(), customerId, visible);
    }

    /** GetReviewsByProductId: the answer the store gives, with nothing changed. */
    method GetReviewsByProductId(productId: int, visible: Option<bool>) returns (r: seq<Review>)
      modifies this
      ensures r == ReviewStore.GetReviewsByProductId(State(), productId, visible)
      ensures State() == old(State()) && commits == old(commits)
      ensures log == old(log) + [ReviewStore.GetReviewsByProductIdCall(productId, visible)]
    {
      log := log + [ReviewStore.GetReviewsByProductIdCall(productId, visible)];
      r := ReviewStore.GetReviewsByProductId(State(), productId, visible);
    }

    method DeleteReview(customerId: int, productId: int, conflict: bool) returns (ok: bool)
      requires Valid()
      modifies this
      ensures Valid()
      ensures var s := ReviewStore.DeleteReview(old(State()), customerId, productId, conflict);
              State() == s.db && ok == s.ok && commits == old(commits) + (if s.committed then 1 else 0)
      ensures log == old(log) + [ReviewStore.DeleteReviewCall(customerId, productId)]
    {
      log := log + [ReviewStore.DeleteReviewCall(customerId, productId)];
      ok := false;
      var found := ReviewStore.FirstIndex(reviews, customerId, productId);
      if found.Some? {
        var i := found.value;
        commits := commits + 1;
        if !conflict {
          ReviewStore.RemoveAtFirstIndex(reviews, customerId, productId, i);
          reviews := reviews[..i] + reviews[i + 1..];
          ok := true;
        }
      }
    }

    method EditReview(reviewModel: Option<Review>, conflict: bool) returns (ok: bool)
      requires Valid()
      modifies this
      ensures Valid()
      ensures var s := ReviewStore.EditReview(old(State()), reviewModel, conflict);
              State() == s.db && ok == s.ok && commits == old(commits) + (if s.committed then 1 else 0)
      ensures log == old(log) + [ReviewStore.EditReviewCall(reviewModel)]
    {
      log := log + [ReviewStore.EditReviewCall(reviewModel)];
      ok := false;
      if reviewModel.Some? {
        var m := reviewModel.value;
        var found := ReviewStore.FirstIndex(reviews, m.customerId, m.productId);
        if found.Some? {
          var i := found.value;
          commits := commits + 1;
          if !conflict {
            ReviewStore.UpdateAtFirstIndex(reviews, m.customerId, m.productId, i, ReviewStore.SetRating(m.rating));
            // ReviewText and TimeStamp are assigned their own stored values.
            reviews := reviews[i := reviews[i].(rating := m.rating)];
            ok := true;
          }
        }
      }
    }

    method NewPurchases(purchaseModel: ReviewStore.PurchaseModel, conflict: bool) returns (ok: bool)
      requires Valid()
      requires purchaseModel.orderedItems.Some?
      requires ReviewStore.AddsDistinct(purchases, purchaseModel.customerId, purchaseModel.orderedItems.value)
      modifies this
      ensures Valid()
      ensures var s := ReviewStore.NewPurchases(old(State()), purchaseModel, conflict);
              State() == s.db && ok == s.ok && commits == old(commits) + (if s.committed then 1 else 0)
      ensures log == old(log) + [ReviewStore.NewPurchasesCall(purchaseModel)]
    {
      log := log + [ReviewStore.NewPurchasesCall(purchaseModel)];
      var items := purchaseModel.orderedItems.value;
      var customerId := purchaseModel.customerId;
      // The Add calls made on the context; the existence check reads the stored
      // purchases only, not these.
      var pending: seq<Purchase> := [];
      for i := 0 to |items|
        invariant pending == ReviewStore.PendingAdds(purchases, customerId, items[..i])
      {
        assert items[..i + 1][..i] == items[..i];
        if !ReviewStore.PurchaseExists(State(), customerId, items[i]) {
          pending := pending + [(customerId, items[i])];
        }
      }
      assert items[..|items|] == items;
      commits := commits + 1;
      if conflict {
        ok := false;
      } else {
        purchases := purchases + set x | x in pending;
        ok := true;
      }
    }

    method NewReview(reviewModel: Option<Review>, conflict: bool) returns (ok: bool)
      requires Valid()
      requires reviewModel.Some? ==> !ReviewStore.ReviewExists(State(), reviewModel.value.customerId, reviewModel.value.productId)
      modifies this
      ensures Valid()
      ensures var s := ReviewStore.NewReview(old(State()), reviewModel, conflict);
              State() == s.db && ok == s.ok && commits == old(commits) + (if s.committed then 1 else 0)
      ensures log == old(log) + [ReviewStore.NewReviewCall(reviewModel)]
    {
      log := log + [ReviewStore.NewReviewCall(reviewModel)];
      ok := false;
      if reviewModel.Some? {
        var review := reviewModel.value.(visible := true);
        commits := commits + 1;
        if !conflict {
          reviews := reviews + [review];
          ok := true;
        }
      }
    }

    method HideReview(customerId: int, productId: int, conflict: bool) returns (ok: bool)
      requires Valid()
      modifies this
      ensures Valid()
      ensures var s := ReviewStore.HideReview(old(State()), customerId, productId, conflict);
              State() == s.db && ok == s.ok && commits == old(commits) + (if s.committed then 1 else 0)
      ensures log == old(log) + [ReviewStore.HideReviewCall(customerId, productId)]
    {
      log := log + [ReviewStore.HideReviewCall(customerId, productId)];
      ok := false;
      var found := ReviewStore.FirstIndex(reviews, customerId, productId);
      if found.Some? {
        var i := found.value;
        commits := commits + 1;
        if !conflict {
          ReviewStore.UpdateAtFirstIndex(reviews, customerId, productId, i, ReviewStore.Hide);
          reviews := reviews[i := reviews[i].(visible := false)];
          ok := true;
        }
      }
    }

    method NewCustomer(newCustomer: Option<Customer>, conflict: bool) returns (ok: bool)
      requires Valid()
      requires newCustomer.Some? ==> newCustomer.value.customerId !in customers
      modifies this
      ensures Valid()
      ensures var s := ReviewStore.NewCustomer(old(State()), newCustomer, conflict);
              State() == s.db && ok == s.ok && commits == old(commits) + (if s.committed then 1 else 0)
      ensures log == old(log) + [ReviewStore.NewCustomerCall(newCustomer)]
    {
      log := log + [ReviewStore.NewCustomerCall(newCustomer)];
      if newCustomer.None? {
        return false;
      }
      var customer := newCustomer.value;
      commits := commits + 1;
      if conflict {
        return false;
      }
      customers := customers[customer.customerId := customer];
      return true;
    }

    method EditCustomer(editedCustomer: Option<Customer>, conflict: bool) returns (ok: bool)
      requires Valid()
      modifies this
      ensures Valid()
      ensures var s := ReviewStore.EditCustomer(old(State()), editedCustomer, conflict);
              State() == s.db && ok == s.ok && commits == old(commits) + (if s.committed then 1 else 0)
      ensures log == old(log) + [ReviewStore.EditCustomerCall(editedCustomer)]
    {
      log := log + [ReviewStore.EditCustomerCall(editedCustomer)];
      if editedCustomer.None? {
        return false;
      }
      var edited := editedCustomer.value;
      if edited.customerId !in customers {
        return false;
      }
      var customer := customers[edited.customerId];
      if customer.customerName != edited.customerName && !NullOrEmpty(edited.customerName) {
        commits := commits + 1;
        if conflict {
          return false;
        }
        customers := customers[edited.customerId := customer.(customerName := edited.customerName)];
      }
      return true;
    }

    method AnonymiseCustomer(customerId: int, conflict: bool) returns (ok: bool)
      requires Valid()
      modifies this
      ensures Valid()
      ensures var s := ReviewStore.AnonymiseCustomer(old(State()), customerId, conflict);
              State() == s.db && ok == s.ok && commits == old(commits) + (if s.committed then 1 else 0)
      ensures log == old(log) + [ReviewStore.AnonymiseCustomerCall(customerId)]
    {
      log := log + [ReviewStore.AnonymiseCustomerCall(customerId)];
      if customerId !in customers {
        return false;
      }
      var customer := customers[customerId];
      commits := commits + 1;
      if conflict {
        return false;
      }
      customers := customers[customerId := customer.(customerName := Some(ReviewStore.AnonymisedName))];
      return true;
    }
  }
}
