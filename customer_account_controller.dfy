/**
 * The endpoint through which the customer account service keeps the
 * customer table in step (ReviewService/Controllers/CustomerAccountController.cs).
 */
module CustomerAccountController {
  import opened Wrappers
  import opened ReviewData
  import opened ServiceModels
  import ReviewStore
  import Repository

  /** The guard of POST and PUT: the DTO is present and its name is not null or empty. */
  predicate ValidCustomer(customer: Option<CustomerDto>)
  {
    customer.Some? && !NullOrEmpty(customer.value.customerName)
  }

  /** The guard looks at the name only: a null DTO, a null name and an empty name are rejected, any other name passes. */
  lemma ValidCustomerNameOnly(customer: CustomerDto, name: string)
    requires name != ""
    ensures !ValidCustomer(None)
    ensures !ValidCustomer(Some(customer.(customerName := None)))
    ensures !ValidCustomer(Some(customer.(customerName := Some(""))))
    ensures ValidCustomer(Some(customer.(customerName := Some(name))))
  {
  }

  /**
   * POST: an invalid DTO is Unprocessable with no repository call; a valid
   * one is passed to one NewCustomer call, and the result is Ok exactly
   * when it succeeds. A valid DTO for an id already stored is a duplicate
   * key that the database rejects, so that case is excluded.
   */
  method Post(repo: Repository.ReviewRepository, customer: Option<CustomerDto>, conflict: bool)
    returns (outcome: Outcome)
    requires repo.Valid()
    requires ValidCustomer(customer) ==> customer.value.customerId !in repo.customers
    modifies repo
    ensures repo.Valid()
    ensures !ValidCustomer(customer) ==>
              outcome == Unprocessable && repo.log == old(repo.log)
              && repo.State() == old(repo.State()) && repo.commits == old(repo.commits)
    ensures ValidCustomer(customer) ==>
              var s := ReviewStore.NewCustomer(old(repo.State()), customer, conflict);
              repo.log == old(repo.log) + [ReviewStore.NewCustomerCall(customer)]
              && repo.State() == s.db && repo.commits == old(repo.commits) + (if s.committed then 1 else 0)
              && (outcome == Ok <==> s.ok) && (outcome == Ok || outcome == NotFound)
  {
    if !ValidCustomer(customer) {
      return Unprocessable;
    }
    var added := repo.NewCustomer(customer, conflict);
    outcome := if added then Ok else NotFound;
  }

  /** PUT: as POST, with one EditCustomer call in place of NewCustomer. */
  method Put(repo: Repository.ReviewRepository, customer: Option<CustomerDto>, conflict: bool)
    returns (outcome: Outcome)
    requires repo.Valid()
    modifies repo
    ensures repo.Valid()
    ensures !ValidCustomer(customer) ==>
              outcome == Unprocessable && repo.log == old(repo.log)
              && repo.State() == old(repo.State()) && repo.commits == old(repo.commits)
    ensures ValidCustomer(customer) ==>
              var s := ReviewStore.EditCustomer(old(repo.State()), customer, conflict);
              repo.log == old(repo.log) + [ReviewStore.EditCustomerCall(customer)]
              && repo.State() == s.db && repo.commits == old(repo.commits) + (if s.committed then 1 else 0)
              && (outcome == Ok <==> s.ok) && (outcome == Ok || outcome == NotFound)
  {
    if !ValidCustomer(customer) {
      return Unprocessable;
    }
    var edited := repo.EditCustomer(customer, conflict);
    outcome := if edited then Ok else NotFound;
  }

  /** DELETE: no validation; one AnonymiseCustomer call, and Ok exactly when it succeeds. */
  method Delete(repo: Repository.ReviewRepository, customerId: int, conflict: bool)
    returns (outcome: Outcome)
    requires repo.Valid()
    modifies repo
    ensures repo.Valid()
    ensures var s := ReviewStore.AnonymiseCustomer(old(repo.State()), customerId, conflict);
            repo.log == old(repo.log) + [ReviewStore.AnonymiseCustomerCall(customerId)]
            && repo.State() == s.db && repo.commits == old(repo.commits) + (if s.committed then 1 else 0)
            && (outcome == Ok <==> s.ok) && (outcome == Ok || outcome == NotFound)
  {
    var anonymised := repo.AnonymiseCustomer(customerId, conflict);
    outcome := if anonymised then Ok else NotFound;
  }
}
