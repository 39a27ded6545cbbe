/** The catalog records: categories, products and reviews, their defaults,
    the limits the database enforces on their columns, the referential rules
    applied when a row is deleted and the uniqueness of a review per
    (product, user) pair. */
module Catalog {
  import opened Base
  import Accounts

  datatype Category = Category(name: string, description: string, image: string)

  /** A product row.  The price is held in integer cents.  `category` is the
      id of a category row, or None once that category has been deleted. */
  datatype Product = Product(
    name: string,
    description: string,
    priceCents: int,
    category: Option<int>,
    image: string,
    stock: int,
    isActive: bool)

  datatype Review = Review(productId: int, userId: int, rating: int, comment: string)

  const MaxCategoryName: nat := 100
  const MaxProductName: nat := 200
  /** `DecimalField(max_digits=10, decimal_places=2)`: ten digits, of which
      two follow the decimal point, so the cents have at most ten digits. */
  const MaxPriceDigits: nat := 10
  const PriceLimit: int := 10_000_000_000

  /** Whether any text column of `c` holds a NUL character. */
  predicate CategoryHasNul(c: Category) {
    HasNul(c.name) || HasNul(c.description) || HasNul(c.image)
  }

  /** Whether the `varchar` column of the category table takes `c`. */
  predicate CategoryColumnsTake(c: Category) {
    VarcharTakes(c.name, MaxCategoryName)
  }

  /** A category row as the table holds it. */
  predicate CategoryFits(c: Category) {
    |c.name| <= MaxCategoryName && !CategoryHasNul(c)
  }

  /** The row the category table holds once it has taken `c`. */
  function StoredCategory(c: Category): (r: Category)
    ensures r.name == Varchar(c.name, MaxCategoryName) && r.(name := c.name) == c
    ensures !CategoryHasNul(c) ==> CategoryFits(r)
    ensures |c.name| <= MaxCategoryName ==> r == c
  {
    c.(name := Varchar(c.name, MaxCategoryName))
  }

  predicate PriceFits(cents: int) {
    -PriceLimit < cents < PriceLimit
  }

  /** Whether any text column of `p` holds a NUL character. */
  predicate ProductHasNul(p: Product) {
    HasNul(p.name) || HasNul(p.description) || HasNul(p.image)
  }

  /** Whether the columns of the product table take `p`: the name column,
      `numeric(10,2)` for the price and `integer` for the stock. */
  predicate ProductColumnsTake(p: Product) {
    VarcharTakes(p.name, MaxProductName) && PriceFits(p.priceCents) && IsInt32(p.stock)
  }

  /** A product row as the table holds it. */
  predicate ProductFits(p: Product) {
    |p.name| <= MaxProductName && PriceFits(p.priceCents) && IsInt32(p.stock) && !ProductHasNul(p)
  }

  /** The row the product table holds once it has taken `p`. */
  function StoredProduct(p: Product): (r: Product)
    ensures r.name == Varchar(p.name, MaxProductName) && r.(name := p.name) == p
    ensures !ProductHasNul(p) && ProductColumnsTake(p) ==> ProductFits(r)
    ensures |p.name| <= MaxProductName ==> r == p
  {
    p.(name := Varchar(p.name, MaxProductName))
  }

  /** `choices=[(i, i) for i in range(1, 6)]`. */
  predicate IsRating(r: int) {
    1 <= r <= 5
  }

  /** `Product(category=category, **kwargs)`: the arguments given, and the
      declared defaults for the rest. */
  function NewProduct(name: string, description: string, priceCents: int,
                      category: int, stock: Option<Int32>): (p: Product)
    ensures p.name == name && p.description == description && p.priceCents == priceCents
    ensures p.category == Some(category)
    ensures p.stock == (if stock.Some? then stock.value else 0)
    ensures p.isActive
    ensures p.image == ""
  {
    Product(name, description, priceCents, Some(category), "", stock.GetOr(0), true)
  }

  // ---- digits of a price ------------------------------------------------

  function Pow10(k: nat): (r: nat)
    ensures r >= 1
  {
    if k == 0 then 1 else 10 * Pow10(k - 1)
  }

  /** The number of decimal digits of `n`. */
  function Digits(n: nat): (d: nat)
    ensures d >= 1
  {
    if n < 10 then 1 else 1 + Digits(n / 10)
  }

  lemma {:induction false} DigitsAtMost(n: nat, k: nat)
    requires k >= 1
    ensures Digits(n) <= k <==> n < Pow10(k)
    decreases n
  {
    if n < 10 {
      if k > 1 {
        Pow10Grows(k - 1);
      }
    } else if k == 1 {
      assert Digits(n / 10) >= 1;
    } else {
      DigitsAtMost(n / 10, k - 1);
    }
  }

  lemma {:induction false} Pow10Grows(k: nat)
    ensures Pow10(k) <= Pow10(k + 1)
  {
  }

  lemma PriceLimitIsPow10()
    ensures PriceLimit == Pow10(MaxPriceDigits)
  {
    assert Pow10(2) == 100;
    assert Pow10(4) == 100 * Pow10(2);
    assert Pow10(6) == 100 * Pow10(4);
    assert Pow10(8) == 100 * Pow10(6);
    assert Pow10(10) == 100 * Pow10(8);
  }

  /** A price fits the column exactly when its cents have at most ten digits. */
  lemma PriceFitsDigits(cents: int)
    ensures PriceFits(cents) <==> Digits(if cents < 0 then -cents else cents) <= MaxPriceDigits
  {
    PriceLimitIsPow10();
    DigitsAtMost(if cents < 0 then -cents else cents, MaxPriceDigits);
  }

  // ---- table rules ------------------------------------------------------

  /** Every product's category is null or an existing category, and every
      product fits its columns. */
  predicate ProductsValid(products: map<int, Product>, categoryIds: set<int>) {
    forall k :: k in products ==>
      ProductFits(products[k]) &&
      (products[k].category.Some? ==> products[k].category.value in categoryIds)
  }

  /** The ids of the reviews of product `pid` by user `uid`. */
  function ReviewsFor(reviews: map<int, Review>, pid: int, uid: int): set<int> {
    set k | k in reviews && reviews[k].productId == pid && reviews[k].userId == uid
  }

  /** `unique_together = ['product', 'user']`. */
  predicate UniqueReviewPairs(reviews: map<int, Review>) {
    forall a, b ::
      (a in reviews && b in reviews &&
       reviews[a].productId == reviews[b].productId &&
       reviews[a].userId == reviews[b].userId) ==> a == b
  }

  predicate ReviewsValid(reviews: map<int, Review>, productIds: set<int>, userIds: set<int>) {
    && UniqueReviewPairs(reviews)
    && (forall k :: k in reviews ==>
          reviews[k].productId in productIds && reviews[k].userId in userIds &&
          IsRating(reviews[k].rating) && reviews[k].comment != "" && !HasNul(reviews[k].comment))
  }

  /** Under the uniqueness constraint a pair has at most one review. */
  lemma {:induction false} AtMostOneReview(reviews: map<int, Review>, pid: int, uid: int)
    requires UniqueReviewPairs(reviews)
    ensures |ReviewsFor(reviews, pid, uid)| <= 1
  {
    var s := ReviewsFor(reviews, pid, uid);
    if k :| k in reviews && reviews[k].productId == pid && reviews[k].userId == uid {
      assert s == {k} by {
        forall j | j in s ensures j == k {
          assert reviews[j].productId == reviews[k].productId;
          assert reviews[j].userId == reviews[k].userId;
        }
      }
    } else {
      assert s == {} by {
        forall j | j in s ensures false {
        }
      }
    }
  }

  /** The product table after category `cid` is deleted (`on_delete=SET_NULL`). */
  function SetNullCategory(products: map<int, Product>, cid: int): (r: map<int, Product>)
    ensures r.Keys == products.Keys
    ensures forall k :: k in r ==> r[k].category != Some(cid)
    ensures forall k :: k in r ==> r[k].(category := products[k].category) == products[k]
    ensures forall k :: k in r && products[k].category != Some(cid) ==> r[k] == products[k]
  {
    map k | k in products ::
      if products[k].category == Some(cid) then products[k].(category := None) else products[k]
  }

  /** The review table after product `pid` is deleted (`on_delete=CASCADE`). */
  function ReviewsWithoutProduct(reviews: map<int, Review>, pid: int): (r: map<int, Review>)
    ensures forall k :: k in r <==> k in reviews && reviews[k].productId != pid
    ensures forall k :: k in r ==> r[k] == reviews[k]
  {
    map k | k in reviews && reviews[k].productId != pid :: reviews[k]
  }

  /** The review table after user `uid` is deleted (`on_delete=CASCADE`). */
  function ReviewsWithoutUser(reviews: map<int, Review>, uid: int): (r: map<int, Review>)
    ensures forall k :: k in r <==> k in reviews && reviews[k].userId != uid
    ensures forall k :: k in r ==> r[k] == reviews[k]
  {
    map k | k in reviews && reviews[k].userId != uid :: reviews[k]
  }

  /** Deleting a category keeps the product table valid for the remaining categories. */
  lemma SetNullValid(products: map<int, Product>, categoryIds: set<int>, cid: int)
    requires ProductsValid(products, categoryIds)
    ensures ProductsValid(SetNullCategory(products, cid), categoryIds - {cid})
  {
  }

  /** Deleting a product or a user keeps the review table valid. */
  lemma ReviewCascadesValid(reviews: map<int, Review>, productIds: set<int>, userIds: set<int>, id: int)
    requires ReviewsValid(reviews, productIds, userIds)
    ensures ReviewsValid(ReviewsWithoutProduct(reviews, id), productIds - {id}, userIds)
    ensures ReviewsValid(ReviewsWithoutUser(reviews, id), productIds, userIds - {id})
  {
  }

  // ---- renderings -------------------------------------------------------

  /** `Category.__str__`. */
  function CategoryStr(c: Category): (s: string)
    ensures s == c.name
  {
    c.name
  }

  /** `Product.__str__`. */
  function ProductStr(p: Product): (s: string)
    ensures s == p.name
  {
    p.name
  }

  const ReviewSeparator: string := " - "

  /** `Review.__str__`: the review's own user and product, looked up in
      their tables. */
  function ReviewStr(rv: Review, users: map<int, Accounts.User>, products: map<int, Product>): (s: string)
    requires rv.userId in users && rv.productId in products
    ensures var name := users[rv.userId].username;
      && |s| == |name| + |ReviewSeparator| + |products[rv.productId].name|
      && s[..|name|] == name
      && s[|name|..|name| + |ReviewSeparator|] == ReviewSeparator
      && s[|name| + |ReviewSeparator|..] == ProductStr(products[rv.productId])
  {
    users[rv.userId].username + ReviewSeparator + products[rv.productId].name
  }
}
