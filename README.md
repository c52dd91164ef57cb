# Review service of the ThAmCo shop, modelled in Dafny

The review service keeps three tables: customers, purchases and product
reviews. A review is keyed by (customer, product). A customer may review a
product only after buying it. Customers create, edit, read and delete their
own reviews. Staff read all reviews, including hidden ones, and hide
reviews. The ordering service reports purchases, and the customer account
service creates, renames and anonymises customers.

The model has the following parts:

- **ReviewData** holds the stored entities and the key configuration of the
  database context, stated as invariants of the stored value (`Keyed`). It
  also holds "every review is backed by a purchase" (`Entitled`) and the
  seed state.
- **ReviewStore** states every repository operation on the value of the
  three tables.
  - A query is a function of that value.
  - A mutator is a `Step`: the new value, the Boolean returned, and whether
    `SaveChangesAsync` was reached.
  - A commit either succeeds or reports a concurrency conflict. The
    `conflict` parameter is that report. On a conflict the tables keep their
    old value and the operation returns false, as every `catch
    (DbUpdateConcurrencyException)` does.
- **Repository.ReviewRepository** is the repository as an object over the
  three tables. It also keeps, as ghost fields, the number of commits and the
  log of calls made on it. Each query method answers from the tables and
  only appends its call to the log. Each mutator finds its row, changes it,
  commits once and appends its call. Each
  is proved to have exactly the effect of the matching ReviewStore function,
  and to keep the key invariants. `NewPurchases` keeps the source's loop over
  the ordered items.
- **ReviewStoreLemmas** holds properties that relate several calls:
  - reads after writes;
  - hide and anonymise are idempotent;
  - purchases are never removed;
  - every mutator except NewReview keeps `Entitled` unconditionally. The
    repository's NewReview does not look at the purchases, so it keeps
    `Entitled` only when the review's purchase is stored. The customer
    controller's pipeline supplies that condition
    (`CustomerReviewController.CreateOrEditKeepsEntitlement`).
- **ServiceModels** holds the records the controllers exchange, the action
  results, and the field-by-field mapping.
- **CustomerReviewController**, **StaffReviewController**,
  **ProductController** and **CustomerAccountController** model the HTTP
  endpoints.
  - The caller's auth id and the current time are inputs.
  - A read endpoint returns the repository calls it makes, in order. A
    write endpoint states the calls it makes as the repository's own call
    log, so "called once" and "never called" are about the repository. It
    also states the number of commits.
  - Reads are functions of the stored value.
  - Actions that write are methods on `Repository.ReviewRepository`.
  - Create/edit is also given as `Decide`, a function of whatever the
    repository answers. That is the form the controller tests use with
    mocked answers.
- **FakeRepository.FakeReviewRepository** is the in-memory repository of
  the controller tests: one customer slot, one purchase slot and a
  `Succeeds` switch.

## Model

| member | source | states |
|---|---|---|
| ReviewData.SeedIsConsistent | ReviewData/ReviewDb.cs:35-123 | the seed has unique review keys, customers stored under their own ids 1 to 5, six distinct purchases, and one visible review (1, 1) backed by the purchase (1, 1) |
| ReviewData.ReviewKeysUnique | ReviewData/ReviewDb.cs:35-36 | no two review rows share a (customer, product) key |
| ReviewData.CustomersKeyed | ReviewData/ReviewDb.cs:41-44 | every customer row is stored under the id it carries |
| ReviewData.Keyed | ReviewData/ReviewDb.cs:35-44 | the key configuration of the database context: both of the above |
| ReviewData.Entitled | ReviewService/Controllers/CustomerReviewController.cs:89 | every stored review is backed by a purchase of the reviewed product by the reviewer |
| ReviewStore.FirstIndex | ReviewRepository/ReviewRepository.cs:135 | FirstOrDefault on the review key: the position found holds the key and no earlier row does, and None exactly when no row holds it |
| ReviewStore.Where | ReviewRepository/ReviewRepository.cs:123-131 | a filtered scan keeps exactly the rows that pass the filter, each as many times as it is stored and no other row, and is no longer than the table |
| ReviewStore.WhereAppend | ReviewRepository/ReviewRepository.cs:123-131 | the scan keeps store order: scanning two stretches of the table in turn is scanning the first and then the second |
| ReviewStore.ValidAuthId | ReviewService/Controllers/CustomerReviewController.cs:81 | with customers stored under their ids, true exactly when some customer row has that id and that auth id |
| ReviewStore.PurchaseExists | ReviewRepository/ReviewRepository.cs:98-101 | true exactly when a purchase row with that customer and product is stored |
| ReviewStore.ReviewExists | ReviewRepository/ReviewRepository.cs:143-146 | true exactly when a review row with that key is stored, whatever its visibility |
| ReviewStore.GetReview | ReviewRepository/ReviewRepository.cs:133-141 | a result is a stored row with the key that is visible unless the caller is staff; no row gives null; with unique keys the result is that row when staff or visible, and null when it is hidden from a non-staff caller |
| ReviewStore.GetReviewsByCustomerId | ReviewRepository/ReviewRepository.cs:123-126 | the result holds exactly the stored reviews of that customer whose Visible equals the filter, each as many times as it is stored; a null filter gives the empty list |
| ReviewStore.GetReviewsByProductId | ReviewRepository/ReviewRepository.cs:128-131 | the result holds exactly the stored reviews of that product whose Visible equals the filter, each as many times as it is stored; a null filter gives the empty list |
| ReviewStore.ScansKeepStoreOrder | ReviewRepository/ReviewRepository.cs:123-131 | both scans return rows in store order: the scan of a table made of two stretches is the scan of the first followed by the scan of the second |
| ReviewStore.UpdateWhere | ReviewRepository/ReviewRepository.cs:47-54 | every row with the key gets the change and every other row is kept, position by position |
| ReviewStore.RemoveAtFirstIndex | ReviewRepository/ReviewRepository.cs:28-31 | with unique keys, removing the row found by position leaves exactly the stored rows without the key, and the keys stay unique |
| ReviewStore.UpdateAtFirstIndex | ReviewRepository/ReviewRepository.cs:150-155 | with unique keys, changing the found row by position is changing every row with the key |
| ReviewStore.PendingAdds | ReviewRepository/ReviewRepository.cs:71-82 | the rows the loop adds are exactly the pairs of this customer and an ordered product that are not a stored purchase |
| ReviewStore.DeleteReview | ReviewRepository/ReviewRepository.cs:24-41 | true exactly when the review exists and the commit succeeds; afterwards it is absent, every other row is kept in store order (the found row is cut out), the table is one row shorter, and nothing else changes; a missing review is false with no commit |
| ReviewStore.EditReview | ReviewRepository/ReviewRepository.cs:43-65 | a null model or a missing key is false with no commit; otherwise only Rating of the keyed row takes the model's value, and text, timestamp, visibility and the other rows are kept |
| ReviewStore.HideReview | ReviewRepository/ReviewRepository.cs:148-165 | a missing key is false with no commit; otherwise the keyed row becomes hidden with all other fields and rows kept, whatever its visibility was |
| ReviewStore.NewReview | ReviewRepository/ReviewRepository.cs:103-121 | a null model is false; otherwise the row is appended with Visible = true, a non-staff read then returns it, and the keys stay unique |
| ReviewStore.NewPurchases | ReviewRepository/ReviewRepository.cs:67-91 | always commits; on success every ordered product is a purchase of the customer, nothing else is added, stored purchases are kept, reviews and customers are unchanged; a batch that repeats a new product is excluded |
| ReviewStore.AddsDistinct | ReviewRepository/ReviewRepository.cs:73-80 | the Add calls of a batch are for distinct keys: a product ordered more than once is already stored |
| ReviewStore.NewCustomer | ReviewRepository/ReviewRepository.cs:167-184 | a null model is false; otherwise the customer is stored under its id and customers stay keyed by id |
| ReviewStore.EditCustomer | ReviewRepository/ReviewRepository.cs:186-210 | null or unknown is false; a name that differs and is not empty is written and committed; otherwise true without a commit; ids, auth ids and the key set never change, and every other customer is kept as it was |
| ReviewStore.AnonymiseCustomer | ReviewRepository/ReviewRepository.cs:212-229 | unknown is false; otherwise the name becomes "Anonymised", the other customers, ids and auth ids are kept, and the key set is unchanged |
| Repository.ReviewRepository.constructor | ReviewData/ReviewDb.cs:35-44 | a repository over tables that satisfy the key configuration starts valid, with no commits and an empty call log |
| Repository.ReviewRepository.ValidAuthId | ReviewService/Controllers/CustomerReviewController.cs:81 | answers ReviewStore.ValidAuthId on the tables, changes nothing and logs its call |
| Repository.ReviewRepository.PurchaseExists | ReviewRepository/ReviewRepository.cs:98-101 | answers ReviewStore.PurchaseExists on the tables, changes nothing and logs its call |
| Repository.ReviewRepository.GetReview | ReviewRepository/ReviewRepository.cs:133-141 | answers ReviewStore.GetReview on the tables, changes nothing and logs its call |
| Repository.ReviewRepository.GetReviewsByCustomerId | ReviewRepository/ReviewRepository.cs:123-126 | answers ReviewStore.GetReviewsByCustomerId on the tables, changes nothing and logs its call |
| Repository.ReviewRepository.GetReviewsByProductId | ReviewRepository/ReviewRepository.cs:128-131 | answers ReviewStore.GetReviewsByProductId on the tables, changes nothing and logs its call |
| Repository.ReviewRepository.DeleteReview | ReviewRepository/ReviewRepository.cs:24-41 | the call is logged; the new tables, the result and the number of commits are those of ReviewStore.DeleteReview, and the key invariants hold |
| Repository.ReviewRepository.EditReview | ReviewRepository/ReviewRepository.cs:43-65 | the call is logged; the new tables, the result and the number of commits are those of ReviewStore.EditReview |
| Repository.ReviewRepository.NewPurchases | ReviewRepository/ReviewRepository.cs:67-91 | the loop over the ordered items stages exactly PendingAdds; the call is logged, and the new tables, the result and the commit are those of ReviewStore.NewPurchases |
| Repository.ReviewRepository.NewReview | ReviewRepository/ReviewRepository.cs:103-121 | the call is logged; the new tables, the result and the number of commits are those of ReviewStore.NewReview |
| Repository.ReviewRepository.HideReview | ReviewRepository/ReviewRepository.cs:148-165 | the call is logged; the new tables, the result and the number of commits are those of ReviewStore.HideReview |
| Repository.ReviewRepository.NewCustomer | ReviewRepository/ReviewRepository.cs:167-184 | the call is logged; the new tables, the result and the number of commits are those of ReviewStore.NewCustomer |
| Repository.ReviewRepository.EditCustomer | ReviewRepository/ReviewRepository.cs:186-210 | the call is logged; the new tables, the result and the number of commits are those of ReviewStore.EditCustomer |
| Repository.ReviewRepository.AnonymiseCustomer | ReviewRepository/ReviewRepository.cs:212-229 | the call is logged; the new tables, the result and the number of commits are those of ReviewStore.AnonymiseCustomer |
| ReviewStoreLemmas.UpdateWhereKeepsKeys | ReviewRepository/ReviewRepository.cs:52-55 | updating fields of the keyed row keeps the review keys unique and introduces no new key |
| ReviewStoreLemmas.DeleteThenAbsent | ReviewRepository/ReviewRepository.cs:24-41 | after a delete neither staff nor customers can read the review, and deleting it again is false without a commit |
| ReviewStoreLemmas.HideIsIdempotent | ReviewRepository/ReviewRepository.cs:148-165 | hiding a hidden review succeeds again, commits, and changes nothing |
| ReviewStoreLemmas.HiddenReviewReadableByStaffOnly | ReviewRepository/ReviewRepository.cs:136 | after a hide a non-staff read gives null, and a staff read gives the review unchanged except for Visible = false |
| ReviewStoreLemmas.EditChangesRatingOnly | ReviewRepository/ReviewRepository.cs:52-54 | after an edit, a staff read gives the stored review with only the rating replaced |
| ReviewStoreLemmas.ResubmittedBatchAddsNothing | ReviewRepository/ReviewRepository.cs:71-84 | a batch submitted twice adds nothing the second time, yet still commits and returns true |
| ReviewStoreLemmas.InBatchDuplicateIsAddedTwice | ReviewRepository/ReviewRepository.cs:73-80 | a new product ordered twice in one batch is staged for adding twice, so such a batch is outside AddsDistinct |
| ReviewStoreLemmas.AnonymiseIsIdempotent | ReviewRepository/ReviewRepository.cs:212-229 | anonymising twice gives the tables of anonymising once, and both calls return true |
| ReviewStoreLemmas.EditCustomerRenamesAnonymised | ReviewRepository/ReviewRepository.cs:199-203 | an anonymised customer can be renamed by EditCustomer to any other non-empty name |
| ReviewStoreLemmas.PurchasesOnlyGrow | ReviewRepository/ReviewRepository.cs:24-229 | no repository operation removes a purchase; each operation has its own arguments, and only the inserts carry their preconditions |
| ReviewStoreLemmas.UpdateWhereKeepsEntitlement | ReviewRepository/ReviewRepository.cs:52-55 | changing fields of the keyed rows keeps every review backed by a purchase |
| ReviewStoreLemmas.DeleteKeepsEntitlement | ReviewRepository/ReviewRepository.cs:24-41 | deleting a review keeps every review backed by a purchase |
| ReviewStoreLemmas.HideKeepsEntitlement | ReviewRepository/ReviewRepository.cs:148-165 | hiding a review keeps every review backed by a purchase |
| ReviewStoreLemmas.EditKeepsEntitlement | ReviewRepository/ReviewRepository.cs:43-65 | editing a review keeps every review backed by a purchase |
| ReviewStoreLemmas.NewReviewKeepsEntitlement | ReviewRepository/ReviewRepository.cs:103-121 | a new review whose purchase is stored keeps every review backed by a purchase |
| ReviewStoreLemmas.OtherMutatorsKeepEntitlement | ReviewRepository/ReviewRepository.cs:67-91 | the purchase and customer mutators keep every review backed by a purchase |
| ServiceModels.ToReviewModel | ReviewService/UserProfile.cs:20 | the DTO's fields carried over by name; Visible, which the DTO lacks, is false |
| ServiceModels.ToReviewDto | ReviewService/UserProfile.cs:21 | the model's fields carried over by name, dropping Visible |
| ServiceModels.ToPurchaseModel | ReviewService/UserProfile.cs:18 | the DTO's customer id, auth id and ordered items carried over by name; a null item list becomes an empty one, as AutoMapper does by default |
| ServiceModels.ToReviewDtos | ReviewService/Controllers/CustomerReviewController.cs:47 | a list is mapped element by element, in order and with the same length |
| ServiceModels.ReviewDtoRoundTrip | ReviewService/UserProfile.cs:20-21 | a DTO mapped to a model and back is the same DTO, and the model is not visible |
| ServiceModels.ReviewModelRoundTrip | ReviewService/UserProfile.cs:20-21 | a model mapped to a DTO and back loses exactly its visibility |
| ServiceModels.PurchaseMappingKeepsBatch | ReviewService/Controllers/ProductController.cs:38 | the batch passed on keeps the customer id, the auth id and the product ids, in order, and always has an item list: a null one arrives empty |
| CustomerReviewController.ValidReview | ReviewService/Controllers/CustomerReviewController.cs:112-117 | a review is valid exactly when its text is neither null nor empty and its rating lies in 0 to 5 |
| CustomerReviewController.ValidReviewBoundaries | ReviewService/Controllers/CustomerReviewController.cs:112-117 | ratings 0 and 5 are accepted; -1, 6, an empty text and a null text are rejected |
| CustomerReviewController.ValidateDate | ReviewService/Controllers/CustomerReviewController.cs:119-132 | the result lies between seven days before now and now; the timestamp is kept exactly when it already lies there, and is replaced by now otherwise |
| CustomerReviewController.ValidateDateIdempotent | ReviewService/Controllers/CustomerReviewController.cs:119-132 | sanitising twice at the same time is sanitising once |
| CustomerReviewController.ValidateDateBoundaries | ReviewService/Controllers/CustomerReviewController.cs:127 | exactly seven days old is kept; one tick older or one tick in the future is replaced by now |
| CustomerReviewController.MappedListing | ReviewService/Controllers/CustomerReviewController.cs:47 | mapping the scan of a filter gives the listing: one DTO per passing row in store order, the DTO of every stored review that passes the filter, and nothing else |
| CustomerReviewController.Get | ReviewService/Controllers/CustomerReviewController.cs:43-64 | every request except a product-only one checks the auth id first, and is Forbid exactly when that check fails; at most two calls are made |
| CustomerReviewController.GetProductReviews | ReviewService/Controllers/CustomerReviewController.cs:45-48 | a product-only request lists exactly the product's visible reviews, with one call and no auth check |
| CustomerReviewController.GetCustomerReviews | ReviewService/Controllers/CustomerReviewController.cs:50-57 | an authorised customer-only request lists exactly the customer's visible reviews |
| CustomerReviewController.GetSingleReview | ReviewService/Controllers/CustomerReviewController.cs:58-63 | any other authorised request returns the visible review keyed by both ids, and NotFound exactly when there is no visible one |
| CustomerReviewController.Decide | ReviewService/Controllers/CustomerReviewController.cs:78-110 | the auth check is always the first call; Ok needs a valid auth id, a valid review and a purchase; the returned DTO differs only in its timestamp; every write carries the sanitised DTO with its timestamp within seven days of now |
| CustomerReviewController.DecideAuthFirst | ReviewService/Controllers/CustomerReviewController.cs:81-84 | an auth failure is Forbid, with no further call and the DTO untouched |
| CustomerReviewController.DecideValidatesBeforeLookup | ReviewService/Controllers/CustomerReviewController.cs:85-88 | an invalid review is Unprocessable before the purchase is looked up |
| CustomerReviewController.DecideNeedsPurchase | ReviewService/Controllers/CustomerReviewController.cs:89-109 | without the purchase the result is NotFound and no review is read or written |
| CustomerReviewController.DecideHiddenNotFound | ReviewService/Controllers/CustomerReviewController.cs:91-95 | a hidden review in the repository's answer gives NotFound, and neither NewReview nor EditReview is called |
| CustomerReviewController.DecideCreates | ReviewService/Controllers/CustomerReviewController.cs:96-109 | with no review, NewReview is called with the sanitised DTO; its success is Ok, its failure leads to one EditReview call whose result decides Ok or NotFound |
| CustomerReviewController.DecideEdits | ReviewService/Controllers/CustomerReviewController.cs:96-109 | with a visible review only EditReview is called, and its result decides Ok or NotFound |
| CustomerReviewController.StoreNeverAnswersHidden | ReviewRepository/ReviewRepository.cs:136 | the store never answers the pipeline's lookup with a hidden review |
| CustomerReviewController.HiddenReviewReachesNewReview | ReviewService/Controllers/CustomerReviewController.cs:91-99 | against the store, a valid submission for a hidden review reaches NewReview although a review with that key is stored |
| CustomerReviewController.CreateOrEdit | ReviewService/Controllers/CustomerReviewController.cs:78-110 | the result, the returned DTO and the calls the repository logs are those of Decide with the store's answers; exactly one commit when the guards pass and none otherwise; the new tables are CreateOrEditEffect of the old ones: unchanged when a guard stops the pipeline, the sanitised review appended when it is new and the insert commits, and otherwise as EditReview leaves them |
| CustomerReviewController.SaveCalls | ReviewService/Controllers/CustomerReviewController.cs:91-107 | the read and write step starts with the customer's GetReview and makes two or three calls |
| CustomerReviewController.ReachesWrite | ReviewService/Controllers/CustomerReviewController.cs:81-89 | the three guards pass: the auth id is the customer's, the review is valid, and the purchase is stored |
| CustomerReviewController.DecideStopsOnStore | ReviewService/Controllers/CustomerReviewController.cs:81-89 | when a guard stops the pipeline, the tables are kept: Forbid or Unprocessable after the auth call, NotFound after the purchase lookup |
| CustomerReviewController.DecideWritesOnStore | ReviewService/Controllers/CustomerReviewController.cs:89-109 | past the guards, Decide's calls are the two guard calls and then those of the write step; the result is Ok after a committed insert, otherwise EditReview's; the effect is the insert or EditReview's |
| CustomerReviewController.Save | ReviewService/Controllers/CustomerReviewController.cs:91-107 | the customer's GetReview, then NewReview when no review is stored, then EditReview unless the insert committed, all logged; one commit; the effect and result are the insert's or EditReview's |
| CustomerReviewController.CreateOrEditKeepsKeys | ReviewService/Controllers/CustomerReviewController.cs:89-109 | the pipeline's effect keeps review keys unique and customers stored under their ids |
| CustomerReviewController.CreateOrEditKeepsEntitlement | ReviewService/Controllers/CustomerReviewController.cs:89-109 | the pipeline writes a review only after finding the purchase, so every review stays backed by a purchase |
| CustomerReviewController.Create | ReviewService/Controllers/CustomerReviewController.cs:66-70 | POST is the create-or-edit pipeline |
| CustomerReviewController.Edit | ReviewService/Controllers/CustomerReviewController.cs:72-76 | PUT is the same pipeline |
| CustomerReviewController.Delete | ReviewService/Controllers/CustomerReviewController.cs:134-147 | the repository logs the auth call first; a failure is Forbid with no change and no commit; otherwise DeleteReview is the next and last logged call, its effect and commit are the new state, and the result is Ok exactly when it succeeds, NotFound otherwise |
| StaffReviewController.Get | ReviewService/Controllers/StaffReviewController.cs:31-48 | every request makes exactly one call, never an auth check, and is never Forbid or Unprocessable |
| StaffReviewController.GetCustomerReviews | ReviewService/Controllers/StaffReviewController.cs:34-37 | a customer-only request lists exactly the customer's reviews whose visibility equals the requested one |
| StaffReviewController.GetProductReviews | ReviewService/Controllers/StaffReviewController.cs:38-41 | a product-only request lists exactly the product's reviews whose visibility equals the requested one |
| StaffReviewController.GetSingleReview | ReviewService/Controllers/StaffReviewController.cs:42-47 | any other request returns the review keyed by both ids, hidden or not, and NotFound exactly when none is stored |
| StaffReviewController.Delete | ReviewService/Controllers/StaffReviewController.cs:50-58 | HideReview is the one call the repository logs, its effect and commit are the new state, and the result is Ok exactly when it succeeds |
| ProductController.ValidPurchases | ReviewService/Controllers/ProductController.cs:45-52 | a batch is valid exactly when it is not null, its customer id is positive, its auth id is neither null nor empty, and its item list is neither null nor empty |
| ProductController.ValidPurchasesNeedsEach | ReviewService/Controllers/ProductController.cs:45-52 | a null DTO, a customer id of 0, a null or empty auth id, and a null or empty item list each make a valid batch invalid |
| ProductController.Post | ReviewService/Controllers/ProductController.cs:31-43 | an invalid batch is Unprocessable with no logged call, no change and no commit; a valid one makes one logged NewPurchases call with the mapped batch and one commit, its effect is the new state, and the result is Ok exactly when it succeeds |
| CustomerAccountController.ValidCustomer | ReviewService/Controllers/CustomerAccountController.cs:34 | the inline guard of Post and Put: the DTO is not null and its name is neither null nor empty |
| CustomerAccountController.ValidCustomerNameOnly | ReviewService/Controllers/CustomerAccountController.cs:34 | a null DTO, a null name and an empty name are rejected, and any other name is accepted |
| CustomerAccountController.Post | ReviewService/Controllers/CustomerAccountController.cs:31-43 | an invalid DTO is Unprocessable with no logged call, no change and no commit; a valid one makes one logged NewCustomer call, its effect and commit are the new state, and the result is Ok exactly when it succeeds |
| CustomerAccountController.Put | ReviewService/Controllers/CustomerAccountController.cs:45-57 | an invalid DTO is Unprocessable with no logged call, no change and no commit; a valid one makes one logged EditCustomer call, its effect and commit are the new state, and the result is Ok exactly when it succeeds |
| CustomerAccountController.Delete | ReviewService/Controllers/CustomerAccountController.cs:59-67 | one logged AnonymiseCustomer call with no validation; its effect and commit are the new state, and the result is Ok exactly when it succeeds |
| FakeRepository.NewOrEditCustomerStep | ReviewRepository/FakeReviewRepository.cs:96-114 | returns Succeeds unless a different customer is refused; a failing fake, a null customer or a different id changes nothing; an empty slot takes the customer; a stored customer keeps its id and auth id and takes the new name |
| FakeRepository.AnonymiseCustomerStep | ReviewRepository/FakeReviewRepository.cs:16-24 | true exactly when the fake succeeds and the slot's id matches, and then only the name becomes "Anonymised"; otherwise nothing changes |
| FakeRepository.NewPurchasesStep | ReviewRepository/FakeReviewRepository.cs:66-74 | returns Succeeds; on success the batch is stored as given, null included; the customer slot is never touched |
| FakeRepository.FailingFakeChangesNothing | ReviewRepository/FakeReviewRepository.cs:12-114 | with Succeeds false, NewCustomer, EditCustomer, AnonymiseCustomer and NewPurchases return false and keep both slots |
| FakeRepository.AnonymiseIsIdempotent | ReviewRepository/FakeReviewRepository.cs:16-24 | anonymising the stored customer twice succeeds twice and changes nothing the second time |
| FakeRepository.NewThenEditKeepsIdentity | ReviewRepository/FakeReviewRepository.cs:96-114 | storing a customer and then editing it keeps its id and auth id and takes the new name, whatever auth id the edit carries |
| FakeRepository.FakeReviewRepository.constructor | ReviewRepository/FakeReviewRepository.cs:12 | a new fake succeeds and holds neither a customer nor a batch |
| FakeRepository.FakeReviewRepository.AnonymiseCustomer | ReviewRepository/FakeReviewRepository.cs:16-24 | the new fields and the result are those of AnonymiseCustomerStep |
| FakeRepository.FakeReviewRepository.NewOrEditCustomer | ReviewRepository/FakeReviewRepository.cs:96-114 | the new fields and the result are those of NewOrEditCustomerStep |
| FakeRepository.FakeReviewRepository.NewCustomer | ReviewRepository/FakeReviewRepository.cs:61-64 | forwards to NewOrEditCustomer |
| FakeRepository.FakeReviewRepository.EditCustomer | ReviewRepository/FakeReviewRepository.cs:31-34 | forwards to NewOrEditCustomer |
| FakeRepository.FakeReviewRepository.NewPurchases | ReviewRepository/FakeReviewRepository.cs:66-74 | the new fields and the result are those of NewPurchasesStep |

## Left out

- Authentication and authorisation are left out. This covers token claims (`GetTokenDetails`), the policy attributes and their configuration in ReviewService/Startup.cs. The caller's auth id is a parameter of the customer endpoints.
- `DateTime.Now` is a `now` parameter. ValidateDate reads the clock several times; the model reads one instant.
- Asynchrony, logging, dependency injection and the ASP.NET result classes are left out. The action results are the `Outcome` datatype.
- AutoMapper (ReviewService/UserProfile.cs) is a library call. It is modelled as the copy of same-named fields. A ProductDto reaches the store only as its ProductId, so ProductName is not modelled.
- Database faults other than the caught concurrency conflict are preconditions. There are five: a duplicate review key on NewReview, a duplicate customer id on NewCustomer, a null batch and null OrderedItems in NewPurchases, and a second Add of one purchase key in NewPurchases (`ReviewStore.AddsDistinct`).
- ReviewStore.NewReview, Repository.ReviewRepository.NewReview: require that no review with the key is stored. Otherwise the database rejects the insert with an uncaught exception.
- ReviewStore.NewCustomer, Repository.ReviewRepository.NewCustomer, CustomerAccountController.Post: require that the id is not stored, for the same reason.
- ReviewStore.NewPurchases, Repository.ReviewRepository.NewPurchases: take a non-null batch and require a non-null item list. ReviewRepository/ReviewRepository.cs:71 dereferences both without a check, so a null batch or a null list throws a NullReferenceException that is not caught; neither call is modelled.
- ReviewStore.NewPurchases, Repository.ReviewRepository.NewPurchases, ProductController.Post: require `AddsDistinct`, so a batch that orders a product twice when it is not yet stored is not modelled. The context tracks two entities with one key and the save fails with an error the source does not catch.
- CustomerReviewController.CreateOrEdit, Create, Edit: exclude the path on which a hidden review reaches NewReview (`InsertsOverHidden`). HiddenReviewReachesNewReview shows that this path exists.
- FakeRepository.AnonymiseCustomerStep, FakeRepository.FakeReviewRepository.AnonymiseCustomer: require a stored customer while Succeeds is true, because the source dereferences the empty slot.
- The fake stores the caller's CustomerModel object itself, and later writes its name in place, so the caller's object changes too. The model stores values, so this aliasing is not modelled.
- The fake members that throw NotImplementedException are not modelled.
- The controllers are modelled over the store-backed repository only. The controller tests run them against the fake and against mocks; for CreateOrEdit, `Decide` covers any repository answers.
- The private `CustomerExists` of ReviewRepository/ReviewRepository.cs:93-96 is never called and is not modelled.
- A list result is the mapped rows in store order. No customer name is joined in, and reviews of anonymised customers are not filtered out, because no code shown does either.
- The migrations and the model snapshot (ReviewData/Migrations) are schema history and are not modelled. ReviewRepository/IReviewRepository.cs lists signatures only.
- Concurrency is reduced to the commit-conflict report. Interleaved requests and the store's own transactions are not modelled.

## Where the code and its tests differ

The model follows the code. The lemmas named here exhibit what the code does.

- EditReview copies only Rating. Lines 53-54 of ReviewRepository/ReviewRepository.cs assign ReviewText and TimeStamp to themselves. ReviewTests/ReviewRepositoryTests.cs:541-543 expects them copied. See ReviewStoreLemmas.EditChangesRatingOnly.
- NewReview does not look for an existing review. ReviewTests/ReviewRepositoryTests.cs:680-697 expects false.
- NewPurchases commits even when nothing is new. ReviewTests/ReviewRepositoryTests.cs:786-827 expects no commit. See ReviewStoreLemmas.ResubmittedBatchAddsNothing.
- NewPurchases: a batch that orders a new product twice is excluded by a precondition (`ReviewStore.AddsDistinct`). The existence check reads only the stored purchases, so the source calls Add twice for one key, and the database context rejects the second entity with an error that is not the caught concurrency conflict. ReviewTests/ReviewRepositoryTests.cs:763-783, with a mocked context, expects true and one Add. ReviewStoreLemmas.InBatchDuplicateIsAddedTwice shows that such a batch stages two Adds of one key.
- NewPurchases throws on a null batch and on a null item list, and returns true on an empty list. ReviewTests/ReviewRepositoryTests.cs:830-889 expects false in all three cases (a null batch at 830, a null item list at 850, an empty list at 871).
- EditCustomer does not compare auth ids. ReviewTests/ReviewRepositoryTests.cs:291-312 expects false on a mismatch.
- GetReview(staff: false) hides hidden reviews, so against the store the hidden-review check of CustomerReviewController.cs:92 never fires. The mocks of ReviewTests/CustomerReviewControllerTests.cs:124-125 answer with a hidden review instead. See CustomerReviewController.StoreNeverAnswersHidden and HiddenReviewReachesNewReview.
- Staff Delete does not check its ids. ReviewTests/StaffReviewControllerTests.cs:515-564 expects Unprocessable for ids below 1.
- List results carry no customer name. ReviewTests/ReviewRepositoryTests.cs:1000 expects one.
- ValidateDate keeps a timestamp exactly seven days old, because its comparison is strict. The "exactly seven days" tests pass only because the clock moves between reads. See CustomerReviewController.ValidateDateBoundaries.

## Design notes

- Anonymisation is not final. No test covers it. The account service's Delete endpoint anonymises a customer instead of removing it, and EditCustomer renames an anonymised customer like any other. See ReviewStoreLemmas.EditCustomerRenamesAnonymised.
