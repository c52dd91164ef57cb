/**
 * The persisted entities (ReviewData/Review.cs and the Customer and Purchase
 * entities of ReviewData/ReviewDb.cs), the key configuration of the database
 * context as invariants of the stored value, and its seed data.
 */
module ReviewData {
  import opened Wrappers

  /** A nullable string column. */
  type NString = Option<string>

  /** Timestamps are DateTime values, modelled by their tick count. */
  type Ticks = int

  /**
   * A review row. The repository's ReviewModel has exactly these fields, so
   * the field-by-field mapping between the two is the identity and one
   * datatype serves for both.
   */
  datatype Review = Review(
    customerId: int,
    customerName: NString,
    productId: int,
    rating: int,
    reviewText: NString,
    visible: bool,
    timeStamp: Ticks)

  /** A customer row; the repository's CustomerModel has the same fields. */
  datatype Customer = Customer(customerId: int, customerAuthId: NString, customerName: NString)

  /** A purchase row is nothing but its composite key (CustomerId, ProductId). */
  type Purchase = (int, int)

  /**
   * The content of the three tables. Purchases form a set, so the composite
   * purchase key is unique by construction; customers are a map from the
   * externally supplied id; reviews keep the store's row order.
   */
  datatype Db = Db(reviews: seq<Review>, purchases: set<Purchase>, customers: map<int, Customer>)

  predicate HasKey(r: Review, customerId: int, productId: int)
  {
    r.customerId == customerId && r.productId == productId
  }

  /** The composite review key (CustomerId, ProductId): no two rows share it. */
  ghost predicate ReviewKeysUnique(reviews: seq<Review>)
  {
    forall i, j :: 0 <= i < j < |reviews| ==> !HasKey(reviews[j], reviews[i].customerId, reviews[i].productId)
  }

  /** Customer ids are never generated: every row is stored under the id it carries. */
  ghost predicate CustomersKeyed(customers: map<int, Customer>)
  {
    forall id :: id in customers ==> customers[id].customerId == id
  }

  /** The key constraints of the database context. */
  ghost predicate Keyed(db: Db)
  {
    ReviewKeysUnique(db.reviews) && CustomersKeyed(db.customers)
  }

  /** Every review is backed by a purchase of the reviewed product by the reviewer. */
  ghost predicate Entitled(db: Db)
  {
    forall r :: r in db.reviews ==> (r.customerId, r.productId) in db.purchases
  }

  /**
   * The seeded store state: five customers with ids 1 to 5, six purchases and
   * one review. The seed review leaves CustomerName unset (null) and has the
   * zero DateTime as its TimeStamp.
   */
  const Seed: Db := Db(
    [Review(1, None, 1, 3, Some("Good"), true, 0)],
    {(1, 1), (1, 2), (1, 3), (2, 3), (2, 4), (3, 5)},
    map[
      1 := Customer(1, Some("b45727f0-bf10-40dc-a687-f5cd025630f2"), Some("Chris Burrell")),
      2 := Customer(2, Some("286fa26e-ae5f-4c5a-b89d-7301fb247d78"), Some("Paul Mitchell")),
      3 := Customer(3, Some("b477a6e4-6607-43c9-8ea0-c2367a5b0360"), Some("Jack Ferguson")),
      4 := Customer(4, Some("9fe723cf-7ac2-4b51-a79a-9e5813fb306a"), Some("Carter Ridgeway")),
      5 := Customer(5, Some("727c783f-ede7-4e53-a365-f8c830e327f4"), Some("Karl Hall"))])

  /**
   * The seed satisfies the key constraints, its customer ids are 1 to 5, its
   * six purchase rows are pairwise distinct, and its one review is visible
   * and backed by the purchase (1, 1).
   */
  lemma SeedIsConsistent()
    ensures Keyed(Seed) && Entitled(Seed)
    ensures Seed.customers.Keys == {1, 2, 3, 4, 5}
    ensures |Seed.purchases| == 6
    ensures |Seed.reviews| == 1 && Seed.reviews[0].visible && HasKey(Seed.reviews[0], 1, 1)
  {
  }
}
