/**
 * What the store-backed repository (ReviewRepository/ReviewRepository.cs)
 * does, stated on the value of the three tables: its queries as functions of
 * the stored value, and each mutator as a Step from the value before the call
 * to the value after it, with the Boolean it returns and whether it reached
 * SaveChangesAsync. A commit either succeeds or reports a write conflict
 * (DbUpdateConcurrencyException); the `conflict` parameter is that report, and
 * on a conflict the tables are left as they were and the operation returns false.
 */
module ReviewStore {
  import opened Wrappers
  import opened ReviewData

  /**
   * A purchase batch (ReviewRepository/Models/PurchaseModel.cs). Of each
   * ordered ProductModel only its ProductId is used, so the ordered items are
   * the product ids in order; a null list is None.
   */
  datatype PurchaseModel = PurchaseModel(customerId: int, customerAuthId: NString, orderedItems: Option<seq<int>>)

  /** One call of a controller into the repository, with its arguments. */
  datatype Call =
    | ValidAuthIdCall(customerId: int, authId: NString)
    | PurchaseExistsCall(customerId: int, productId: int)
    | GetReviewCall(customerId: int, productId: int, staff: bool)
    | GetReviewsByCustomerIdCall(customerId: int, visible: Option<bool>)
    | GetReviewsByProductIdCall(productId: int, visible: Option<bool>)
    | NewReviewCall(review: Option<Review>)
    | EditReviewCall(review: Option<Review>)
    | DeleteReviewCall(customerId: int, productId: int)
    | HideReviewCall(customerId: int, productId: int)
    | NewPurchasesCall(purchases: PurchaseModel)
    | NewCustomerCall(customer: Option<Customer>)
    | EditCustomerCall(customer: Option<Customer>)
    | AnonymiseCustomerCall(customerId: int)

  /** The effect of one mutator: the new tables, its result, and whether it committed. */
  datatype Step = Step(db: Db, ok: bool, committed: bool)

  /** The name AnonymiseCustomer writes. */
  const AnonymisedName: string := "Anonymised"

  // ---------------------------------------------------------------------------
  // Queries
  // ---------------------------------------------------------------------------

  /** The position of the first review keyed (customerId, productId): FirstOrDefault on the key. */
  function FirstIndex(reviews: seq<Review>, customerId: int, productId: int): (r: Option<nat>)
    ensures r.Some? ==> r.value < |reviews| && HasKey(reviews[r.value], customerId, productId)
    ensures r.Some? ==> forall k :: 0 <= k < r.value ==> !HasKey(reviews[k], customerId, productId)
    ensures r.None? <==> forall k :: 0 <= k < |reviews| ==> !HasKey(reviews[k], customerId, productId)
  {
    if |reviews| == 0 then None
    else if HasKey(reviews[0], customerId, productId) then Some(0)
    else match FirstIndex(reviews[1..], customerId, productId)
      case None => None
      case Some(i) => Some(i + 1)
  }

  /** A row filter of the Where clauses the repository uses. */
  datatype Filter =
    | OfCustomer(customerId: int, visible: Option<bool>)
    | OfProduct(productId: int, visible: Option<bool>)

  /**
   * Whether a row passes a filter. `r.Visible == visible` compares a bool with
   * a bool?, so a null `visible` passes no row.
   */
  predicate Keeps(f: Filter, r: Review)
  {
    match f
    case OfCustomer(id, visible) => r.customerId == id && visible == Some(r.visible)
    case OfProduct(id, visible) => r.productId == id && visible == Some(r.visible)
  }

  /**
   * The rows that pass the filter, in store order: each passing row as often
   * as it is stored, each other row not at all (WhereAppend gives the order).
   */
  function Where(s: seq<Review>, f: Filter): (r: seq<Review>)
    ensures |r| <= |s|
    ensures forall x :: x in r <==> x in s && Keeps(f, x)
    ensures forall x :: multiset(r)[x] == if Keeps(f, x) then multiset(s)[x] else 0
  {
    if |s| == 0 then []
    else
      assert s == [s[0]] + s[1..];
      (if Keeps(f, s[0]) then [s[0]] else []) + Where(s[1..], f)
  }

  /** A scan of two stretches of the table is the scan of the first followed by the scan of the second. */
  lemma {:induction false} WhereAppend(s: seq<Review>, t: seq<Review>, f: Filter)
    ensures Where(s + t, f) == Where(s, f) + Where(t, f)
  {
    if |s| == 0 {
      assert s + t == t;
    } else {
      var head := if Keeps(f, s[0]) then [s[0]] else [];
      assert (s + t)[0] == s[0];
      assert (s + t)[1..] == s[1..] + t;
      WhereAppend(s[1..], t, f);
      calc {
        Where(s + t, f);
        head + Where(s[1..] + t, f);
        head + (Where(s[1..], f) + Where(t, f));
        { ConcatAssociates(head, Where(s[1..], f), Where(t, f)); }
        (head + Where(s[1..], f)) + Where(t, f);
        Where(s, f) + Where(t, f);
      }
    }
  }

  /** Concatenation regroups freely. */
  lemma ConcatAssociates<T>(a: seq<T>, b: seq<T>, c: seq<T>)
    ensures a + (b + c) == (a + b) + c
  {
  }

  /**
   * The authorisation check of the customer-facing controller. The repository
   * shown does not implement it; it holds when a stored customer row carries
   * that id and exactly that auth id.
   */
  function ValidAuthId(db: Db, customerId: int, authId: NString): (r: bool)
    ensures CustomersKeyed(db.customers) ==>
              (r <==> exists k :: k in db.customers && db.customers[k].customerId == customerId
                                  && db.customers[k].customerAuthId == authId)
  {
    customerId in db.customers && db.customers[customerId].customerAuthId == authId
  }

  /** Whether the purchase (customerId, productId) is stored. */
  function PurchaseExists(db: Db, customerId: int, productId: int): (r: bool)
    ensures r <==> exists pr :: pr in db.purchases && pr.0 == customerId && pr.1 == productId
  {
    (customerId, productId) in db.purchases
  }

  /** Whether a review keyed (customerId, productId) is stored, whatever its visibility. */
  function ReviewExists(db: Db, customerId: int, productId: int): (r: bool)
    ensures r <==> exists k :: 0 <= k < |db.reviews| && HasKey(db.reviews[k], customerId, productId)
  {
    FirstIndex(db.reviews, customerId, productId).Some?
  }

  /**
   * The review keyed (customerId, productId), or None when there is none or
   * when it is hidden and the caller is not staff.
   */
  function GetReview(db: Db, customerId: int, productId: int, staff: bool): (r: Option<Review>)
    ensures r.Some? ==> r.value in db.reviews && HasKey(r.value, customerId, productId) && (staff || r.value.visible)
    ensures !ReviewExists(db, customerId, productId) ==> r.None?
    ensures ReviewKeysUnique(db.reviews) ==>
              forall k :: 0 <= k < |db.reviews| && HasKey(db.reviews[k], customerId, productId) ==>
                r == if staff || db.reviews[k].visible then Some(db.reviews[k]) else None
  {
    match FirstIndex(db.reviews, customerId, productId)
    case None => None
    case Some(i) => if !staff && !db.reviews[i].visible then None else Some(db.reviews[i])
  }

  /** The reviews by one customer whose Visible equals `visible`, in store order. */
  function GetReviewsByCustomerId(db: Db, customerId: int, visible: Option<bool>): (r: seq<Review>)
    ensures forall x :: x in r <==> x in db.reviews && x.customerId == customerId && visible == Some(x.visible)
    ensures forall x :: multiset(r)[x] == if x.customerId == customerId && visible == Some(x.visible)
                                           then multiset(db.reviews)[x] else 0
    ensures visible.None? ==> r == []
  {
    var r := Where(db.reviews, OfCustomer(customerId, visible));
    assert r != [] ==> r[0] in r;
    r
  }

  /** The reviews of one product whose Visible equals `visible`, in store order. */
  function GetReviewsByProductId(db: Db, productId: int, visible: Option<bool>): (r: seq<Review>)
    ensures forall x :: x in r <==> x in db.reviews && x.productId == productId && visible == Some(x.visible)
    ensures forall x :: multiset(r)[x] == if x.productId == productId && visible == Some(x.visible)
                                           then multiset(db.reviews)[x] else 0
    ensures visible.None? ==> r == []
  {
    var r := Where(db.reviews, OfProduct(productId, visible));
    assert r != [] ==> r[0] in r;
    r
  }

  /**
   * Both scans keep store order: scanning a table made of two stretches gives
   * the rows found in the first stretch and then those found in the second.
   */
  lemma ScansKeepStoreOrder(db: Db, a: seq<Review>, b: seq<Review>, customerId: int, productId: int, visible: Option<bool>)
    ensures GetReviewsByCustomerId(db.(reviews := a + b), customerId, visible)
            == GetReviewsByCustomerId(db.(reviews := a), customerId, visible)
               + GetReviewsByCustomerId(db.(reviews := b), customerId, visible)
    ensures GetReviewsByProductId(db.(reviews := a + b), productId, visible)
            == GetReviewsByProductId(db.(reviews := a), productId, visible)
               + GetReviewsByProductId(db.(reviews := b), productId, visible)
  {
    WhereAppend(a, b, OfCustomer(customerId, visible));
    WhereAppend(a, b, OfProduct(productId, visible));
  }

  // ---------------------------------------------------------------------------
  // Row updates used by the mutators
  // ---------------------------------------------------------------------------

  /** A field update applied to a found review row. */
  datatype Change = SetRating(rating: int) | Hide

  function Apply(ch: Change, r: Review): Review
  {
    match ch
    case SetRating(rating) => r.(rating := rating)
    case Hide => r.(visible := false)
  }

  /** Every row keyed (customerId, productId) with the change applied; the others as they are. */
  function UpdateWhere(s: seq<Review>, customerId: int, productId: int, ch: Change): (r: seq<Review>)
    ensures |r| == |s|
    ensures forall k :: 0 <= k < |s| ==> r[k] == if HasKey(s[k], customerId, productId) then Apply(ch, s[k]) else s[k]
    ensures forall k :: 0 <= k < |s| ==> r[k].customerId == s[k].customerId && r[k].productId == s[k].productId
  {
    seq(|s|, k requires 0 <= k < |s| => if HasKey(s[k], customerId, productId) then Apply(ch, s[k]) else s[k])
  }

  /**
   * With unique keys, removing the first keyed row by position removes every
   * keyed row, keeps every other row, and keeps the keys unique.
   */
  lemma RemoveAtFirstIndex(s: seq<Review>, customerId: int, productId: int, i: nat)
    requires ReviewKeysUnique(s)
    requires FirstIndex(s, customerId, productId) == Some(i)
    ensures forall x :: x in s[..i] + s[i + 1..] <==> x in s && !HasKey(x, customerId, productId)
    ensures ReviewKeysUnique(s[..i] + s[i + 1..])
  {
    var r := s[..i] + s[i + 1..];
    assert |r| == |s| - 1;
    assert forall k :: 0 <= k < i ==> r[k] == s[k];
    assert forall k :: i <= k < |r| ==> r[k] == s[k + 1];
    forall k | 0 <= k < |s| && k != i
      ensures !HasKey(s[k], customerId, productId)
    {
      if k > i {
        assert !HasKey(s[k], s[i].customerId, s[i].productId);
      }
    }
    forall x | x in r
      ensures x in s && !HasKey(x, customerId, productId)
    {
      var k :| 0 <= k < |r| && r[k] == x;
      if k < i { assert s[k] == x; } else { assert s[k + 1] == x; }
    }
    forall x | x in s && !HasKey(x, customerId, productId)
      ensures x in r
    {
      var k :| 0 <= k < |s| && s[k] == x;
      if k < i { assert r[k] == x; } else { assert r[k - 1] == x; }
    }
    forall a, b | 0 <= a < b < |r|
      ensures !HasKey(r[b], r[a].customerId, r[a].productId)
    {
      var a' := if a < i then a else a + 1;
      var b' := if b < i then b else b + 1;
      assert r[a] == s[a'] && r[b] == s[b'];
    }
  }

  /** Updating the first keyed row by position updates every keyed row, because keys are unique. */
  lemma UpdateAtFirstIndex(s: seq<Review>, customerId: int, productId: int, i: nat, ch: Change)
    requires ReviewKeysUnique(s)
    requires FirstIndex(s, customerId, productId) == Some(i)
    ensures UpdateWhere(s, customerId, productId, ch) == s[i := Apply(ch, s[i])]
  {
    assert forall k :: i < k < |s| ==> !HasKey(s[k], s[i].customerId, s[i].productId);
  }

  /** The products of a batch that the loop of NewPurchases adds, in order: those not already stored. */
  function PendingAdds(stored: set<Purchase>, customerId: int, items: seq<int>): (adds: seq<Purchase>)
    ensures forall x :: x in adds <==> x !in stored && x.0 == customerId && x.1 in items
  {
    if |items| == 0 then []
    else
      PendingAdds(stored, customerId, items[..|items| - 1])
      + (if (customerId, items[|items| - 1]) in stored then [] else [(customerId, items[|items| - 1])])
  }

  /**
   * Whether the Add calls of NewPurchases are for distinct keys: a product
   * ordered more than once in one batch is already stored. Otherwise the
   * context is asked to track two purchases with one key, and the fault is
   * not caught.
   */
  predicate AddsDistinct(stored: set<Purchase>, customerId: int, items: seq<int>)
  {
    forall i, j :: 0 <= i < j < |items| && items[i] == items[j] ==> (customerId, items[i]) in stored
  }

  /** Whether EditCustomer writes: the name differs from the stored one and is not null or empty. */
  predicate Renames(stored: Customer, edited: Customer)
  {
    stored.customerName != edited.customerName && !NullOrEmpty(edited.customerName)
  }

  // ---------------------------------------------------------------------------
  // Mutators
  // ---------------------------------------------------------------------------

  /**
   * DeleteReview: a hard delete of the review keyed (customerId, productId).
   * SingleOrDefault would throw on two such rows; the key makes that impossible.
   */
  function DeleteReview(db: Db, customerId: int, productId: int, conflict: bool): (s: Step)
    requires ReviewKeysUnique(db.reviews)
    ensures s.ok <==> ReviewExists(db, customerId, productId) && !conflict
    ensures s.committed <==> ReviewExists(db, customerId, productId)
    ensures !s.ok ==> s.db == db
    ensures s.db.purchases == db.purchases && s.db.customers == db.customers
    ensures s.ok ==> !ReviewExists(s.db, customerId, productId)
    ensures s.ok ==> forall x :: x in s.db.reviews <==> x in db.reviews && !HasKey(x, customerId, productId)
    ensures s.ok ==> |s.db.reviews| == |db.reviews| - 1
    ensures s.ok ==> match FirstIndex(db.reviews, customerId, productId)
                       case Some(i) => s.db.reviews == db.reviews[..i] + db.reviews[i + 1..]
                       case None => false
    ensures ReviewKeysUnique(s.db.reviews)
  {
    if !ReviewExists(db, customerId, productId) then Step(db, false, false)
    else if conflict then Step(db, false, true)
    else
      var i := FirstIndex(db.reviews, customerId, productId).value;
      RemoveAtFirstIndex(db.reviews, customerId, productId, i);
      Step(db.(reviews := db.reviews[..i] + db.reviews[i + 1..]), true, true)
  }

  /**
   * EditReview: a null model or a missing key returns false without a commit.
   * Otherwise only Rating is copied from the model: the source assigns
   * ReviewText and TimeStamp to themselves, so they keep their stored values.
   */
  function EditReview(db: Db, model: Option<Review>, conflict: bool): (s: Step)
    ensures s.ok <==> model.Some? && ReviewExists(db, model.value.customerId, model.value.productId) && !conflict
    ensures s.committed <==> model.Some? && ReviewExists(db, model.value.customerId, model.value.productId)
    ensures !s.ok ==> s.db == db
    ensures s.db.purchases == db.purchases && s.db.customers == db.customers
    ensures |s.db.reviews| == |db.reviews|
    ensures s.ok ==> forall k :: 0 <= k < |db.reviews| ==>
              s.db.reviews[k] == if HasKey(db.reviews[k], model.value.customerId, model.value.productId)
                                 then db.reviews[k].(rating := model.value.rating)
                                 else db.reviews[k]
  {
    match model
    case None => Step(db, false, false)
    case Some(m) =>
      if !ReviewExists(db, m.customerId, m.productId) then Step(db, false, false)
      else if conflict then Step(db, false, true)
      else Step(db.(reviews := UpdateWhere(db.reviews, m.customerId, m.productId, SetRating(m.rating))), true, true)
  }

  /**
   * HideReview: sets Visible to false on the review keyed (customerId,
   * productId), whatever its visibility was; a missing review returns false.
   */
  function HideReview(db: Db, customerId: int, productId: int, conflict: bool): (s: Step)
    ensures s.ok <==> ReviewExists(db, customerId, productId) && !conflict
    ensures s.committed <==> ReviewExists(db, customerId, productId)
    ensures !s.ok ==> s.db == db
    ensures s.db.purchases == db.purchases && s.db.customers == db.customers
    ensures |s.db.reviews| == |db.reviews|
    ensures s.ok ==> forall k :: 0 <= k < |db.reviews| ==>
              s.db.reviews[k] == if HasKey(db.reviews[k], customerId, productId)
                                 then db.reviews[k].(visible := false)
                                 else db.reviews[k]
  {
    if !ReviewExists(db, customerId, productId) then Step(db, false, false)
    else if conflict then Step(db, false, true)
    else Step(db.(reviews := UpdateWhere(db.reviews, customerId, productId, Hide)), true, true)
  }

  /**
   * NewReview: a null model returns false. Otherwise the mapped row is added
   * with Visible = true. The source does not look for an existing review; a
   * second row with the same key is a duplicate-key fault of the database
   * that nothing catches, so that case is excluded here.
   */
  function NewReview(db: Db, model: Option<Review>, conflict: bool): (s: Step)
    requires model.Some? ==> !ReviewExists(db, model.value.customerId, model.value.productId)
    ensures s.ok <==> model.Some? && !conflict
    ensures s.committed <==> model.Some?
    ensures !s.ok ==> s.db == db
    ensures s.db.purchases == db.purchases && s.db.customers == db.customers
    ensures s.ok ==> s.db.reviews == db.reviews + [model.value.(visible := true)]
    ensures s.ok ==> GetReview(s.db, model.value.customerId, model.value.productId, false)
                     == Some(model.value.(visible := true))
    ensures ReviewKeysUnique(db.reviews) ==> ReviewKeysUnique(s.db.reviews)
  {
    match model
    case None => Step(db, false, false)
    case Some(m) =>
      if conflict then Step(db, false, true)
      else
        var added := db.reviews + [m.(visible := true)];
        assert HasKey(added[|db.reviews|], m.customerId, m.productId);
        Step(db.(reviews := added), true, true)
  }

  /**
   * NewPurchases: every ordered product that is not already a stored purchase
   * of the customer is added, and the batch is committed whether or not
   * anything was added. A null OrderedItems is a null dereference the source
   * does not catch, and a new product ordered twice is added twice under one
   * key, which the context rejects; both are excluded here.
   */
  function NewPurchases(db: Db, purchases: PurchaseModel, conflict: bool): (s: Step)
    requires purchases.orderedItems.Some?
    requires AddsDistinct(db.purchases, purchases.customerId, purchases.orderedItems.value)
    ensures s.committed
    ensures s.ok <==> !conflict
    ensures !s.ok ==> s.db == db
    ensures s.db.reviews == db.reviews && s.db.customers == db.customers
    ensures db.purchases <= s.db.purchases
    ensures s.ok ==> forall k :: 0 <= k < |purchases.orderedItems.value| ==>
              (purchases.customerId, purchases.orderedItems.value[k]) in s.db.purchases
    ensures s.ok ==> forall x :: x in s.db.purchases <==>
              x in db.purchases || (x.0 == purchases.customerId && x.1 in purchases.orderedItems.value)
  {
    var adds := PendingAdds(db.purchases, purchases.customerId, purchases.orderedItems.value);
    if conflict then Step(db, false, true)
    else Step(db.(purchases := db.purchases + set x | x in adds), true, true)
  }

  /**
   * NewCustomer: a null model returns false. Otherwise the mapped row is
   * added under the id it carries. An id already stored is a duplicate-key
   * fault that nothing catches, so that case is excluded here.
   */
  function NewCustomer(db: Db, model: Option<Customer>, conflict: bool): (s: Step)
    requires model.Some? ==> model.value.customerId !in db.customers
    ensures s.ok <==> model.Some? && !conflict
    ensures s.committed <==> model.Some?
    ensures !s.ok ==> s.db == db
    ensures s.db.reviews == db.reviews && s.db.purchases == db.purchases
    ensures s.ok ==> s.db.customers == db.customers[model.value.customerId := model.value]
    ensures CustomersKeyed(db.customers) ==> CustomersKeyed(s.db.customers)
  {
    match model
    case None => Step(db, false, false)
    case Some(m) =>
      if conflict then Step(db, false, true)
      else Step(db.(customers := db.customers[m.customerId := m]), true, true)
  }

  /**
   * EditCustomer: a null model or an unknown id returns false. The stored
   * name is replaced, and committed, only when the new one differs and is
   * not null or empty; otherwise nothing is written and the result is true.
   * The auth id of the model is not compared with the stored one.
   */
  function EditCustomer(db: Db, model: Option<Customer>, conflict: bool): (s: Step)
    ensures s.committed <==> model.Some? && model.value.customerId in db.customers
                             && Renames(db.customers[model.value.customerId], model.value)
    ensures s.ok <==> model.Some? && model.value.customerId in db.customers && !(s.committed && conflict)
    ensures !s.ok || !s.committed ==> s.db == db
    ensures s.db.reviews == db.reviews && s.db.purchases == db.purchases
    ensures s.db.customers.Keys == db.customers.Keys
    ensures forall id :: id in db.customers ==>
              s.db.customers[id].customerId == db.customers[id].customerId
              && s.db.customers[id].customerAuthId == db.customers[id].customerAuthId
    ensures forall id :: id in db.customers && (model.None? || id != model.value.customerId) ==>
              s.db.customers[id] == db.customers[id]
    ensures s.ok ==> var id := model.value.customerId;
              s.db.customers[id].customerName
              == if NullOrEmpty(model.value.customerName) then db.customers[id].customerName else model.value.customerName
    ensures CustomersKeyed(db.customers) ==> CustomersKeyed(s.db.customers)
  {
    match model
    case None => Step(db, false, false)
    case Some(m) =>
      if m.customerId !in db.customers then Step(db, false, false)
      else
        var stored := db.customers[m.customerId];
        if !Renames(stored, m) then Step(db, true, false)
        else if conflict then Step(db, false, true)
        else Step(db.(customers := db.customers[m.customerId := stored.(customerName := m.customerName)]), true, true)
  }

  /** AnonymiseCustomer: an unknown id returns false; otherwise the name becomes "Anonymised". */
  function AnonymiseCustomer(db: Db, customerId: int, conflict: bool): (s: Step)
    ensures s.ok <==> customerId in db.customers && !conflict
    ensures s.committed <==> customerId in db.customers
    ensures !s.ok ==> s.db == db
    ensures s.db.reviews == db.reviews && s.db.purchases == db.purchases
    ensures s.db.customers.Keys == db.customers.Keys
    ensures s.ok ==> s.db.customers[customerId] == db.customers[customerId].(customerName := Some(AnonymisedName))
    ensures forall id :: id in db.customers && id != customerId ==> s.db.customers[id] == db.customers[id]
    ensures CustomersKeyed(db.customers) ==> CustomersKeyed(s.db.customers)
  {
    if customerId !in db.customers then Step(db, false, false)
    else if conflict then Step(db, false, true)
    else
      var c := db.customers[customerId];
      Step(db.(customers := db.customers[customerId := c.(customerName := Some(AnonymisedName))]), true, true)
  }
}
