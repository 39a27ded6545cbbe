/** The record store the resolvers read and write: one table per model, each
    a map from row id to record, and one id sequence per table.  Every write
    is one atomic `save()` or `delete()`; a write that the database would
    refuse leaves every table as it was. */
module Tables {
  import opened Base
  import opened Accounts
  import opened Catalog

  /** Every id of a table is positive and below the table's next id. */
  predicate IdsBelow(ids: set<int>, next: int) {
    0 < next && forall k :: k in ids ==> 0 < k < next
  }

  predicate UsernameTakenByOther(users: map<int, User>, name: string, id: int) {
    exists k :: k in users && k != id && users[k].username == name
  }

  class Store {
    var users: map<int, User>
    var profiles: map<int, Profile>
    var categories: map<int, Category>
    var products: map<int, Product>
    var reviews: map<int, Review>
    var nextUserId: int
    var nextProfileId: int
    var nextCategoryId: int
    var nextProductId: int
    var nextReviewId: int

    /** What holds of the tables: the database guarantees fresh ids, the
        column limits, unique usernames, foreign keys that point at existing
        rows, one profile per user and one review per (product, user).  That
        every rating is one of the declared choices and every comment is
        non-blank is no database constraint: it holds because every review
        is written through model validation. */
    ghost predicate Valid()
      reads this
    {
      && IdsBelow(users.Keys, nextUserId)
      && IdsBelow(profiles.Keys, nextProfileId)
      && IdsBelow(categories.Keys, nextCategoryId)
      && IdsBelow(products.Keys, nextProductId)
      && IdsBelow(reviews.Keys, nextReviewId)
      && UsernamesUnique(users)
      && (forall k :: k in users ==> UserFits(users[k]))
      && ProfilesValid(profiles, users.Keys)
      && (forall k :: k in categories ==> CategoryFits(categories[k]))
      && ProductsValid(products, categories.Keys)
      && ReviewsValid(reviews, products.Keys, users.Keys)
    }

    constructor ()
      ensures Valid()
      ensures users == map[] && profiles == map[] && categories == map[]
      ensures products == map[] && reviews == map[]
      ensures nextUserId == nextProfileId == nextCategoryId == nextProductId == nextReviewId == 1
    {
      users, profiles, categories, products, reviews := map[], map[], map[], map[], map[];
      nextUserId, nextProfileId, nextCategoryId, nextProductId, nextReviewId := 1, 1, 1, 1, 1;
    }

    /** `user.save()` of a new user.  The driver rejects a NUL before
        anything is sent; the database then checks the columns, draws an id
        and checks the unique username. */
    method InsertUser(u: User) returns (r: Result<int>)
      requires Valid()
      modifies this`users, this`nextUserId
      ensures Valid()
      ensures UserHasNul(u) ==> r == Err(NulCharacter)
      ensures !UserHasNul(u) && !UserColumnsTake(u) ==> r == Err(DataError)
      ensures !UserHasNul(u) && UserColumnsTake(u) && UsernameTaken(old(users), u.username) ==>
        r == Err(DuplicateUsername)
      ensures r.Err? ==> users == old(users)
      ensures r == Err(NulCharacter) || r == Err(DataError) ==> nextUserId == old(nextUserId)
      ensures r == Err(DuplicateUsername) ==> nextUserId == old(nextUserId) + 1
      ensures !UserHasNul(u) && UserColumnsTake(u) && !UsernameTaken(old(users), u.username) ==>
        && r == Ok(old(nextUserId))
        && old(nextUserId) !in old(users)
        && users == old(users)[old(nextUserId) := StoredUser(u)]
        && nextUserId == old(nextUserId) + 1
    {
      if UserHasNul(u) {
        return Err(NulCharacter);
      }
      if !UserColumnsTake(u) {
        return Err(DataError);
      }
      if UsernameTaken(users, u.username) {
        nextUserId := nextUserId + 1;
        return Err(DuplicateUsername);
      }
      r := Ok(nextUserId);
      users := users[nextUserId := StoredUser(u)];
      nextUserId := nextUserId + 1;
    }

    /** `user.save()` of a user row that was loaded from the table. */
    method SaveUser(id: int, u: User) returns (r: Result<int>)
      requires Valid()
      requires id in users
      modifies this`users
      ensures Valid()
      ensures UserHasNul(u) ==> r == Err(NulCharacter)
      ensures !UserHasNul(u) && !UserColumnsTake(u) ==> r == Err(DataError)
      ensures !UserHasNul(u) && UserColumnsTake(u) && UsernameTakenByOther(old(users), u.username, id) ==>
        r == Err(DuplicateUsername)
      ensures r.Err? ==> users == old(users)
      ensures !UserHasNul(u) && UserColumnsTake(u) && !UsernameTakenByOther(old(users), u.username, id) ==>
        r == Ok(id) && users == old(users)[id := StoredUser(u)]
    {
      if UserHasNul(u) {
        return Err(NulCharacter);
      }
      if !UserColumnsTake(u) {
        return Err(DataError);
      }
      if UsernameTakenByOther(users, u.username, id) {
        return Err(DuplicateUsername);
      }
      r := Ok(id);
      users := users[id := StoredUser(u)];
    }

    /** `profile.save()` of a new profile. */
    method InsertProfile(p: Profile) returns (r: Result<int>)
      requires Valid()
      modifies this`profiles, this`nextProfileId
      ensures Valid()
      ensures ProfileHasNul(p) ==> r == Err(NulCharacter)
      ensures !ProfileHasNul(p) && !ProfileColumnsTake(p) ==> r == Err(DataError)
      ensures !ProfileHasNul(p) && ProfileColumnsTake(p) && ProfilesOf(old(profiles), p.userId) != {} ==>
        r == Err(DuplicateProfile)
      ensures (!ProfileHasNul(p) && ProfileColumnsTake(p) && ProfilesOf(old(profiles), p.userId) == {} &&
               p.userId !in users) ==> r == Err(MissingReference)
      ensures r.Err? ==> profiles == old(profiles)
      ensures r == Err(NulCharacter) || r == Err(DataError) ==> nextProfileId == old(nextProfileId)
      ensures r == Err(DuplicateProfile) || r == Err(MissingReference) ==> nextProfileId == old(nextProfileId) + 1
      ensures (!ProfileHasNul(p) && ProfileColumnsTake(p) && ProfilesOf(old(profiles), p.userId) == {} &&
               p.userId in users) ==>
        && r == Ok(old(nextProfileId))
        && old(nextProfileId) !in old(profiles)
        && profiles == old(profiles)[old(nextProfileId) := StoredProfile(p)]
        && nextProfileId == old(nextProfileId) + 1
    {
      if ProfileHasNul(p) {
        return Err(NulCharacter);
      }
      if !ProfileColumnsTake(p) {
        return Err(DataError);
      }
      if ProfilesOf(profiles, p.userId) != {} {
        nextProfileId := nextProfileId + 1;
        return Err(DuplicateProfile);
      }
      if p.userId !in users {
        nextProfileId := nextProfileId + 1;
        return Err(MissingReference);
      }
      r := Ok(nextProfileId);
      profiles := profiles[nextProfileId := StoredProfile(p)];
      nextProfileId := nextProfileId + 1;
      assert forall k :: k in old(profiles) ==> k in ProfilesOf(old(profiles), p.userId) || profiles[k].userId != p.userId;
    }

    /** `category.save()` of a new category. */
    method InsertCategory(c: Category) returns (r: Result<int>)
      requires Valid()
      modifies this`categories, this`nextCategoryId
      ensures Valid()
      ensures CategoryHasNul(c) ==> r == Err(NulCharacter)
      ensures !CategoryHasNul(c) && !CategoryColumnsTake(c) ==> r == Err(DataError)
      ensures r.Err? ==> categories == old(categories) && nextCategoryId == old(nextCategoryId)
      ensures !CategoryHasNul(c) && CategoryColumnsTake(c) ==>
        && r == Ok(old(nextCategoryId))
        && old(nextCategoryId) !in old(categories)
        && categories == old(categories)[old(nextCategoryId) := StoredCategory(c)]
        && nextCategoryId == old(nextCategoryId) + 1
    {
      if CategoryHasNul(c) {
        return Err(NulCharacter);
      }
      if !CategoryColumnsTake(c) {
        return Err(DataError);
      }
      r := Ok(nextCategoryId);
      categories := categories[nextCategoryId := StoredCategory(c)];
      nextCategoryId := nextCategoryId + 1;
    }

    /** `product.save()` of a new product. */
    method InsertProduct(p: Product) returns (r: Result<int>)
      requires Valid()
      modifies this`products, this`nextProductId
      ensures Valid()
      ensures ProductHasNul(p) ==> r == Err(NulCharacter)
      ensures !ProductHasNul(p) && !ProductColumnsTake(p) ==> r == Err(DataError)
      ensures (!ProductHasNul(p) && ProductColumnsTake(p) && p.category.Some? &&
               p.category.value !in categories) ==> r == Err(MissingReference)
      ensures r.Err? ==> products == old(products)
      ensures r == Err(NulCharacter) || r == Err(DataError) ==> nextProductId == old(nextProductId)
      ensures r == Err(MissingReference) ==> nextProductId == old(nextProductId) + 1
      ensures (!ProductHasNul(p) && ProductColumnsTake(p) &&
               (p.category.Some? ==> p.category.value in categories)) ==>
        && r == Ok(old(nextProductId))
        && old(nextProductId) !in old(products)
        && products == old(products)[old(nextProductId) := StoredProduct(p)]
        && nextProductId == old(nextProductId) + 1
    {
      if ProductHasNul(p) {
        return Err(NulCharacter);
      }
      if !ProductColumnsTake(p) {
        return Err(DataError);
      }
      if p.category.Some? && p.category.value !in categories {
        nextProductId := nextProductId + 1;
        return Err(MissingReference);
      }
      r := Ok(nextProductId);
      products := products[nextProductId := StoredProduct(p)];
      nextProductId := nextProductId + 1;
    }

    /** A validated `review.save()`: `full_clean` checks the fields (the
        product and the user must exist, the rating must be one of its
        choices, the comment must not be blank), then the (product, user)
        uniqueness; the first error in that order is reported.  A review that
        passes is saved, and the driver still rejects a NUL in the comment.
        Every refusal happens before the INSERT, so no id is consumed. */
    method InsertReview(rv: Review) returns (r: Result<int>)
      requires Valid()
      modifies this`reviews, this`nextReviewId
      ensures Valid()
      ensures rv.productId !in products || rv.userId !in users ==> r == Err(MissingReference)
      ensures rv.productId in products && rv.userId in users && !IsRating(rv.rating) ==>
        r == Err(InvalidChoice)
      ensures (rv.productId in products && rv.userId in users && IsRating(rv.rating) &&
               rv.comment == "") ==> r == Err(BlankField)
      ensures (rv.productId in products && rv.userId in users && IsRating(rv.rating) &&
               rv.comment != "" && ReviewsFor(old(reviews), rv.productId, rv.userId) != {}) ==>
        r == Err(DuplicateReview)
      ensures (rv.productId in products && rv.userId in users && IsRating(rv.rating) &&
               rv.comment != "" && ReviewsFor(old(reviews), rv.productId, rv.userId) == {} &&
               HasNul(rv.comment)) ==> r == Err(NulCharacter)
      ensures r.Err? ==> reviews == old(reviews) && nextReviewId == old(nextReviewId)
      ensures (rv.productId in products && rv.userId in users && IsRating(rv.rating) &&
               rv.comment != "" && ReviewsFor(old(reviews), rv.productId, rv.userId) == {} &&
               !HasNul(rv.comment)) ==>
        && r == Ok(old(nextReviewId))
        && old(nextReviewId) !in old(reviews)
        && reviews == old(reviews)[old(nextReviewId) := rv]
        && nextReviewId == old(nextReviewId) + 1
    {
      if rv.productId !in products || rv.userId !in users {
        return Err(MissingReference);
      }
      if !IsRating(rv.rating) {
        return Err(InvalidChoice);
      }
      if rv.comment == "" {
        return Err(BlankField);
      }
      if ReviewsFor(reviews, rv.productId, rv.userId) != {} {
        return Err(DuplicateReview);
      }
      if HasNul(rv.comment) {
        return Err(NulCharacter);
      }
      r := Ok(nextReviewId);
      reviews := reviews[nextReviewId := rv];
      nextReviewId := nextReviewId + 1;
      assert forall k :: k in old(reviews) ==> k in ReviewsFor(old(reviews), rv.productId, rv.userId) ||
                                               reviews[k].productId != rv.productId || reviews[k].userId != rv.userId;
    }

    /** `category.delete()`: its products stay, with their category set to null. */
    method DeleteCategory(id: int)
      requires Valid()
      modifies this`categories, this`products
      ensures Valid()
      ensures categories == old(categories) - {id}
      ensures products == SetNullCategory(old(products), id)
      ensures id !in old(categories) ==> products == old(products)
    {
      SetNullValid(products, categories.Keys, id);
      if id !in categories {
        forall k | k in products ensures SetNullCategory(products, id)[k] == products[k] {
          assert products[k].category != Some(id);
        }
        assert SetNullCategory(products, id) == products;
      }
      categories := categories - {id};
      products := SetNullCategory(products, id);
    }

    /** `product.delete()`: its reviews go with it. */
    method DeleteProduct(id: int)
      requires Valid()
      modifies this`products, this`reviews
      ensures Valid()
      ensures products == old(products) - {id}
      ensures reviews == ReviewsWithoutProduct(old(reviews), id)
      ensures id !in old(products) ==> reviews == old(reviews)
    {
      ReviewCascadesValid(reviews, products.Keys, users.Keys, id);
      if id !in products {
        forall k | k in reviews ensures k in ReviewsWithoutProduct(reviews, id) {
          assert reviews[k].productId in products;
        }
        assert ReviewsWithoutProduct(reviews, id) == reviews;
      }
      products := products - {id};
      reviews := ReviewsWithoutProduct(reviews, id);
    }

    /** `user.delete()`: their reviews and their profile go with them. */
    method DeleteUser(id: int)
      requires Valid()
      modifies this`users, this`reviews, this`profiles
      ensures Valid()
      ensures users == old(users) - {id}
      ensures reviews == ReviewsWithoutUser(old(reviews), id)
      ensures profiles == ProfilesWithoutUser(old(profiles), id)
      ensures id !in old(users) ==> reviews == old(reviews) && profiles == old(profiles)
    {
      ReviewCascadesValid(reviews, products.Keys, users.Keys, id);
      ProfilesCascadeValid(profiles, users.Keys, id);
      if id !in users {
        forall k | k in reviews ensures k in ReviewsWithoutUser(reviews, id) {
          assert reviews[k].userId in users;
        }
        assert ReviewsWithoutUser(reviews, id) == reviews;
        forall k | k in profiles ensures k in ProfilesWithoutUser(profiles, id) {
          assert profiles[k].userId in users;
        }
        assert ProfilesWithoutUser(profiles, id) == profiles;
      }
      users := users - {id};
      reviews := ReviewsWithoutUser(reviews, id);
      profiles := ProfilesWithoutUser(profiles, id);
    }
  }
}
