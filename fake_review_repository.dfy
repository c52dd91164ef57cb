/**
 * The in-memory repository the controller tests use
 * (ReviewRepository/FakeReviewRepository.cs): one customer slot, one
 * purchase-batch slot and a Succeeds switch. Its effects are stated on the
 * value of the three fields, and the class methods are proved to have them.
 * The remaining members of the fake throw NotImplementedException.
 */
module FakeRepository {
  import opened Wrappers
  import opened ReviewData
  import ReviewStore

  /** The three public fields; a null slot is None. */
  datatype Fake = Fake(succeeds: bool, customer: Option<Customer>, purchases: Option<ReviewStore.PurchaseModel>)

  /** The fields after a call, and what the call returned. */
  datatype FakeStep = FakeStep(fake: Fake, ok: bool)

  /** Whether a customer is given while the slot holds one with a different id. */
  predicate OtherCustomer(f: Fake, customer: Option<Customer>)
  {
    customer.Some? && f.customer.Some? && f.customer.value.customerId != customer.value.customerId
  }

  /**
   * The shared body of NewCustomer and EditCustomer: an empty slot takes the
   * customer, a matching slot takes its name, a different customer is
   * refused; a null customer changes nothing. The result is Succeeds except
   * when a different customer is refused.
   */
  function NewOrEditCustomerStep(f: Fake, customer: Option<Customer>): (s: FakeStep)
    ensures s.ok <==> f.succeeds && !OtherCustomer(f, customer)
    ensures s.fake.succeeds == f.succeeds && s.fake.purchases == f.purchases
    ensures !f.succeeds || customer.None? || OtherCustomer(f, customer) ==> s.fake == f
    ensures f.succeeds && customer.Some? && f.customer.None? ==> s.fake.customer == customer
    ensures f.customer.Some? ==>
              s.fake.customer.Some?
              && s.fake.customer.value.customerId == f.customer.value.customerId
              && s.fake.customer.value.customerAuthId == f.customer.value.customerAuthId
    ensures s.ok && customer.Some? ==> s.fake.customer.value.customerName == customer.value.customerName
  {
    if f.succeeds && customer.Some? then
      if OtherCustomer(f, customer) then FakeStep(f, false)
      else if f.customer.None? then FakeStep(f.(customer := customer), true)
      else FakeStep(f.(customer := Some(f.customer.value.(customerName := customer.value.customerName))), true)
    else FakeStep(f, f.succeeds)
  }

  /**
   * AnonymiseCustomer: with Succeeds and a matching slot the name becomes
   * "Anonymised" and the result is true; otherwise false with no change.
   * With Succeeds and an empty slot the source dereferences null, so that
   * case is excluded.
   */
  function AnonymiseCustomerStep(f: Fake, customerId: int): (s: FakeStep)
    requires f.succeeds ==> f.customer.Some?
    ensures s.ok <==> f.succeeds && f.customer.value.customerId == customerId
    ensures !s.ok ==> s.fake == f
    ensures s.ok ==> s.fake == f.(customer := Some(f.customer.value.(customerName := Some(ReviewStore.AnonymisedName))))
  {
    if f.succeeds && customerId == f.customer.value.customerId then
      FakeStep(f.(customer := Some(f.customer.value.(customerName := Some(ReviewStore.AnonymisedName)))), true)
    else FakeStep(f, false)
  }

  /**
   * NewPurchases: with Succeeds the batch is kept as given, a null batch
   * included, and the result is true; otherwise false with no change.
   */
  function NewPurchasesStep(f: Fake, purchases: Option<ReviewStore.PurchaseModel>): (s: FakeStep)
    ensures s.ok == f.succeeds
    ensures s.ok ==> s.fake.purchases == purchases
    ensures s.fake.succeeds == f.succeeds && s.fake.customer == f.customer
    ensures !s.ok ==> s.fake == f
  {
    if f.succeeds then FakeStep(f.(purchases := purchases), true) else FakeStep(f, false)
  }

  /** A failing fake answers false to every implemented mutator and keeps its slots. */
  lemma FailingFakeChangesNothing(f: Fake, customer: Option<Customer>, customerId: int, purchases: Option<ReviewStore.PurchaseModel>)
    requires !f.succeeds
    ensures NewOrEditCustomerStep(f, customer) == FakeStep(f, false)
    ensures AnonymiseCustomerStep(f, customerId) == FakeStep(f, false)
    ensures NewPurchasesStep(f, purchases) == FakeStep(f, false)
  {
  }

  /** Anonymising twice is anonymising once. */
  lemma AnonymiseIsIdempotent(f: Fake, customerId: int)
    requires f.succeeds && f.customer.Some? && f.customer.value.customerId == customerId
    ensures var once := AnonymiseCustomerStep(f, customerId);
            AnonymiseCustomerStep(once.fake, customerId) == FakeStep(once.fake, true)
  {
  }

  /**
   * Storing a customer in an empty slot and then editing it with a new name
   * keeps the stored id and auth id and takes the new name; the auth id of
   * the edit is not compared.
   */
  lemma NewThenEditKeepsIdentity(f: Fake, customer: Customer, edited: Customer)
    requires f.succeeds && f.customer.None? && edited.customerId == customer.customerId
    ensures var added := NewOrEditCustomerStep(f, Some(customer));
            var again := NewOrEditCustomerStep(added.fake, Some(edited));
            added.ok && again.ok
            && again.fake.customer == Some(customer.(customerName := edited.customerName))
  {
  }

  class FakeReviewRepository {
    var succeeds: bool
    var customer: Option<Customer>
    var purchases: Option<ReviewStore.PurchaseModel>

    function State(): Fake
      reads this
    {
      Fake(succeeds, customer, purchases)
    }

    /** A new fake succeeds and holds no customer and no batch. */
    constructor ()
      ensures State() == Fake(true, None, None)
    {
      succeeds := true;
      customer := None;
      purchases := None;
    }

    method AnonymiseCustomer(customerId: int) returns (ok: bool)
      requires succeeds ==> customer.Some?
      modifies this
      ensures var s := AnonymiseCustomerStep(old(State()), customerId); State() == s.fake && ok == s.ok
    {
      if succeeds && customerId == customer.value.customerId {
        customer := Some(customer.value.(customerName := Some(ReviewStore.AnonymisedName)));
        return true;
      }
      return false;
    }

    method EditCustomer(editedCustomer: Option<Customer>) returns (ok: bool)
      modifies this
      ensures var s := NewOrEditCustomerStep(old(State()), editedCustomer); State() == s.fake && ok == s.ok
    {
      ok := NewOrEditCustomer(editedCustomer);
    }

    method NewCustomer(newCustomer: Option<Customer>) returns (ok: bool)
      modifies this
      ensures var s := NewOrEditCustomerStep(old(State()), newCustomer); State() == s.fake && ok == s.ok
    {
      ok := NewOrEditCustomer(newCustomer);
    }

    method NewPurchases(newPurchases: Option<ReviewStore.PurchaseModel>) returns (ok: bool)
      modifies this
      ensures var s := NewPurchasesStep(old(State()), newPurchases); State() == s.fake && ok == s.ok
    {
      if succeeds {
        purchases := newPurchases;
        return true;
      }
      return false;
    }

    method NewOrEditCustomer(given: Option<Customer>) returns (ok: bool)
      modifies this
      ensures var s := NewOrEditCustomerStep(old(State()), given); State() == s.fake && ok == s.ok
    {
      if succeeds && given.Some? {
        if customer.Some? && customer.value.customerId != given.value.customerId {
          return false;
        }
        if customer.None? {
          customer := given;
        } else {
          customer := Some(customer.value.(customerName := given.value.customerName));
        }
      }
      return succeeds;
    }
  }
}
