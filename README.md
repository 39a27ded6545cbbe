# E-commerce GraphQL backend: resolvers, authorization and record store

This project models the GraphQL resolver and authorization layer of a Django/graphene
e-commerce backend, together with the record store it reads and writes.

- **Records** (module `Accounts` for `backend/apps/core/models.py`, module `Catalog` for
  `backend/apps/products/models.py`): users, profiles, categories, products and reviews as
  datatypes. The module also gives their declared defaults, the column rules of the PostgreSQL
  database (what each column takes and what it then holds), the `__str__` renderings and the table rules: unique usernames, one
  profile per user, one review per (product, user), ratings from the choices 1..5 and
  non-blank comments, `SET_NULL`/`CASCADE` on delete. Prices are integer cents.
- **Store** (module `Tables`, class `Store`): one map from id to record per table, one id
  sequence per table, and an invariant `Valid()`. It states what the database guarantees,
  plus the review rules that hold because every review is written through model validation.
  Each `save()` and `delete()` is a method that refuses what the driver or the database would
  refuse and otherwise states the whole new content of the tables it touches. The `modifies` frame
  names exactly the tables it may change.
- **Resolvers** (module `CoreSchema` for `backend/apps/core/schemas.py`, module `ProductSchema`
  for `backend/apps/products/schemas.py`). Queries are functions over the tables. Mutations
  are methods on a `Store`. The caller is an explicit `Caller` value (`Anonymous` or
  `Authenticated(id, account)`). An authenticated caller carries the user record loaded for
  the request: `me` returns that record, and `is_staff` of an anonymous caller is false.

The model follows the code in these places:
- Django's `AbstractUser` makes only the username unique, not the email, so `createUser`
  has no duplicate-email error.
- Price and stock are not constrained to be non-negative.
- `updateUser` can write only `phone` and `bio`: graphene refuses arguments the mutation
  does not declare, so the `setattr` loop only ever sees those two keys. The model uses
  this closed set.

The production settings (`backend/settings/production.py:20-28`) select PostgreSQL.
- A `varchar(n)` column (`CharField(max_length=n)`) refuses a longer string, unless every
  character past the n-th is a space. It then keeps the first n characters.
  `Base.VarcharTakes` and `Base.Varchar` state this rule.
- `DecimalField(max_digits=10, decimal_places=2)` refuses a price of more than ten digits.
- A column refusal of either kind is one `DataError`.
- The PostgreSQL driver refuses any string holding a NUL character, in every text column,
  before it sends the statement (`NulCharacter`).
- A resolver answers with the record as it is in memory. The table holds it after the
  column has cut it.

When a write breaks several rules, the store reports the first one in this order:
1. NUL characters
2. column values
3. uniqueness
4. foreign keys

A review goes through `full_clean` before it is saved. The checks are: the product and the
user must exist, the rating must be one of its choices, and the comment must not be blank.
The (product, user) uniqueness comes after them. `full_clean` collects every field's errors
before it raises; the store reports the first error in that order. A review that passes is
then saved, and the driver still refuses a NUL in its comment.

Each table's id comes from a PostgreSQL sequence. An INSERT that the database refuses on
a unique or foreign-key check has already drawn its id, so the sequence still advances.
A write refused before the INSERT draws no id. This covers a string holding a NUL and a
review that fails validation.

## Model

| member | source | states |
|---|---|---|
| `Base.Varchar` | backend/apps/core/models.py:7 | what a `varchar(n)` column holds of a string it takes: at most n characters, a prefix of the value, the value itself when it fits, and free of NUL when the value is |
| `Base.VarcharCutsOnlySpaces` | backend/apps/core/models.py:7 | a `varchar(n)` column takes a string exactly when the string is what the column holds followed only by spaces |
| `Accounts.NewUser` | backend/apps/core/schemas.py:54-59 | the new user has the given username, email and optional first/last names (empty when omitted), stores the hashed password it is given, and every other field is at its default: not staff, not superuser, active, empty phone and bio, no picture, no groups or permissions |
| `Accounts.StoredUser` | backend/apps/core/models.py:7 | the user row as the table holds it: only the phone differs, cut to 20 characters; a row free of NUL then fits the table, and a row whose phone fits is kept as it is |
| `Accounts.StoredProfile` | backend/apps/core/models.py:38-40 | the profile row as the table holds it: only city, country and postal code differ, each cut to its limit; a row free of NUL then fits, and a row that fits is kept as it is |
| `Accounts.AtMostOneProfile` | backend/apps/core/models.py:36 | under the one-to-one constraint a user owns at most one profile row |
| `Accounts.ProfilesWithoutUser` | backend/apps/core/models.py:36 | the cascade removes exactly the profiles of the deleted user and leaves every other profile as it was |
| `Accounts.ProfilesCascadeValid` | backend/apps/core/models.py:36-40 | after the cascade the profile table is valid for the remaining users: every profile still refers to an existing user, is one-to-one and fits its columns |
| `Accounts.UserStr` | backend/apps/core/models.py:30-31 | a user renders as their email |
| `Accounts.ProfileStr` | backend/apps/core/models.py:44-45 | a profile renders as "Profile of " followed by the email of the user it refers to, looked up in the user table |
| `Accounts.ProfileStrNamesOwner` | backend/apps/core/models.py:44-45 | two profiles of one user table render alike exactly when the users they refer to have the same email |
| `Catalog.NewProduct` | backend/apps/products/models.py:16-22 | a new product holds the given name, description, price and category; its stock is the given stock, or 0 when omitted; it is active and has no image |
| `Catalog.StoredCategory` | backend/apps/products/models.py:6 | the category row as the table holds it: only the name differs, cut to 100 characters; a row free of NUL then fits, and one whose name fits is kept as it is |
| `Catalog.StoredProduct` | backend/apps/products/models.py:16 | the product row as the table holds it: only the name differs, cut to 200 characters; a row free of NUL whose columns take it then fits, and one whose name fits is kept as it is |
| `Catalog.DigitsAtMost` | backend/apps/products/models.py:18 | a number has at most k decimal digits exactly when it is below 10^k |
| `Catalog.PriceFitsDigits` | backend/apps/products/models.py:18 | a price fits `max_digits=10, decimal_places=2` exactly when its cents have at most ten digits, i.e. their magnitude is below 10^10 |
| `Catalog.AtMostOneReview` | backend/apps/products/models.py:37-38 | under `unique_together` a (product, user) pair has at most one review row |
| `Catalog.SetNullCategory` | backend/apps/products/models.py:19 | deleting a category keeps every product; no product refers to the deleted category any more; only the category field changes, and products of other categories are untouched |
| `Catalog.ReviewsWithoutProduct` | backend/apps/products/models.py:31 | deleting a product removes exactly the reviews of that product and leaves the others as they were |
| `Catalog.ReviewsWithoutUser` | backend/apps/products/models.py:32 | deleting a user removes exactly the reviews written by that user and leaves the others as they were |
| `Catalog.SetNullValid` | backend/apps/products/models.py:19 | after the set-null rule every product fits and refers to no category or to a remaining one |
| `Catalog.ReviewCascadesValid` | backend/apps/products/models.py:31-33 | after either cascade every review refers to an existing product and user, has a rating in 1..5 and a non-blank comment, and pairs stay unique |
| `Catalog.CategoryStr` | backend/apps/products/models.py:11-12 | a category renders as its name |
| `Catalog.ProductStr` | backend/apps/products/models.py:26-27 | a product renders as its name |
| `Catalog.ReviewStr` | backend/apps/products/models.py:40-41 | a review renders as the username of the user it refers to, " - ", then the name of the product it refers to, both looked up in their tables |
| `Tables.Store.InsertUser` | backend/apps/core/schemas.py:60 | saving a new user fails with NulCharacter if any text holds a NUL, with DataError if the phone column does not take the phone (over 20 characters with more than spaces past the 20th), and with DuplicateUsername if the username is taken; each leaves the user table unchanged; only the refused unique check uses up one id; otherwise the row as the columns hold it (phone cut to 20) is stored under the next id, and the sequence advances by one |
| `Tables.Store.SaveUser` | backend/apps/core/schemas.py:84 | saving a loaded user fails with NulCharacter on a NUL, with DataError when the phone column does not take the phone, or on a username held by another row; otherwise exactly that row is replaced by the row as the columns hold it |
| `Tables.Store.InsertProfile` | backend/apps/core/models.py:36-40 | adding a profile fails with NulCharacter on a NUL, with DataError when the city, country or postal code column does not take the value, on a user that already has one, or on a missing user, leaving the profile table unchanged; the last two still use up one id; otherwise the row as the columns hold it is stored under the next id, and the sequence advances by one |
| `Tables.Store.InsertCategory` | backend/apps/products/models.py:6 | adding a category fails with NulCharacter on a NUL, or with DataError when the name column does not take the name (over 100 characters with more than spaces past the 100th), changing neither the table nor the sequence; otherwise the row with its name cut to 100 is stored under the next id, and the sequence advances by one |
| `Tables.Store.InsertProduct` | backend/apps/products/models.py:16-21 | adding a product fails with NulCharacter on a NUL; with DataError when the name column does not take the name (over 200 characters with more than spaces past the 200th), the price exceeds ten digits, or the stock is not a 32-bit integer; or when its category does not exist (which still uses up one id); the product table stays unchanged; otherwise the row with its name cut to 200 is stored under the next id, and the sequence advances by one |
| `Tables.Store.InsertReview` | backend/apps/products/models.py:31-38 | adding a review fails with the first of: MissingReference for a missing product or user, InvalidChoice for a rating outside 1..5, BlankField for an empty comment, DuplicateReview when the (product, user) pair already has one, NulCharacter for a NUL in the comment; every refusal leaves the table and the id sequence unchanged; otherwise it is stored under the next id of the sequence, which advances by one |
| `Tables.Store.DeleteCategory` | backend/apps/products/models.py:19 | deleting a category removes only that row and sets the category of its products to null; no product is removed, and deleting an absent category changes no product |
| `Tables.Store.DeleteProduct` | backend/apps/products/models.py:31 | deleting a product removes that row and exactly its reviews; deleting an absent product changes no review |
| `Tables.Store.DeleteUser` | backend/apps/products/models.py:32 | deleting a user removes that row, exactly their reviews and their profile; deleting an absent user changes neither table |
| `CoreSchema.ViewShowsAllButHidden` | backend/apps/core/schemas.py:9-12 | the user projection depends on nothing of password, groups, user_permissions and is_superuser, and on everything else: two rows project alike exactly when they differ only in those four fields |
| `CoreSchema.Users` | backend/apps/core/schemas.py:27-28 | `users` lists every stored user, each as its own projection |
| `CoreSchema.UserById` | backend/apps/core/schemas.py:30-31 | `userById(id)` succeeds exactly when the id is stored, returning that row's projection, and fails with NotFound otherwise; it reads the tables only |
| `CoreSchema.UserByIdAgreesWithUsers` | backend/apps/core/schemas.py:27-31 | `userById` finds exactly the ids `users` lists, with the same projection |
| `CoreSchema.Me` | backend/apps/core/schemas.py:33-37 | `me` fails with Unauthenticated exactly for an anonymous caller and otherwise returns the caller's own record |
| `CoreSchema.MeIsOwnRecord` | backend/apps/core/schemas.py:30-37 | for a caller whose record is the stored one, `me` answers as `userById` of the caller's id |
| `CoreSchema.Profiles` | backend/apps/core/schemas.py:39-40 | `profiles` lists every stored profile, unfiltered |
| `CoreSchema.CreateUser` | backend/apps/core/schemas.py:53-61 | a NUL in the username, email, names or hash fails with NulCharacter and nothing changes; with a free username, exactly one user is added under a fresh id; it has the given fields and stores hash(password), never the raw password, and the result is its projection; with a taken username it fails and the user table is unchanged; either way the refused or successful INSERT uses up exactly one id |
| `CoreSchema.Assigned` | backend/apps/core/schemas.py:82-83 | the assigned record takes each supplied field's value, keeps each unsupplied field, and changes nothing besides phone and bio |
| `CoreSchema.SetAttributes` | backend/apps/core/schemas.py:82-83 | the `setattr` loop over the supplied arguments yields exactly the assigned record |
| `CoreSchema.UpdateGate` | backend/apps/core/schemas.py:73-79 | the update is allowed exactly for an authenticated caller who is the owner or staff; an anonymous caller gets Unauthenticated, any other caller Forbidden |
| `CoreSchema.UpdateUser` | backend/apps/core/schemas.py:72-85 | a refused caller gets the gate's error before any lookup, and the store is unchanged; an allowed caller gets NotFound for a missing id; otherwise only the supplied subset of phone and bio changes on the target; a NUL gives NulCharacter and a phone the column does not take gives DataError, both leaving the table unchanged; on success the answer shows the assigned record while the table holds the phone cut to 20; every other user is unchanged |
| `ProductSchema.Categories` | backend/apps/products/schemas.py:29-30 | `categories` lists every stored category, unfiltered |
| `ProductSchema.Products` | backend/apps/products/schemas.py:32-33 | `products` lists exactly the stored products that are active, so an inactive product never appears |
| `ProductSchema.ProductById` | backend/apps/products/schemas.py:35-36 | `product(id)` succeeds exactly when the id is stored and that product is active, and fails with NotFound otherwise |
| `ProductSchema.ProductByIdAgreesWithProducts` | backend/apps/products/schemas.py:32-36 | `product(id)` finds exactly the products that `products` lists |
| `ProductSchema.InactiveIsInvisible` | backend/apps/products/schemas.py:35-36 | an existing inactive product answers `product(id)` exactly as a missing one, and removing it does not change `products` |
| `ProductSchema.CreateProduct` | backend/apps/products/schemas.py:49-57 | a caller who is not staff (anonymous included) gets Forbidden and a missing category gives NotFound, both before any write, so neither the table nor the id sequence changes; a NUL in the name or description gives NulCharacter and a column that does not take its value gives DataError, neither changing anything; otherwise exactly one product is added under the next id, with the looked-up category, the given name, description and price, stock 0 if omitted, active, and the name cut to 200 in the table; the sequence advances by one and the answer is the product as given |

## Left out

- JSON Web Token issue, verification and refresh (`backend/graphql/schema.py:23-25`) belong to the `graphql_jwt` library and depend on signatures and the clock. The resolved caller is a parameter instead.
- Schema composition (`backend/graphql/schema.py:8-28`) is framework wiring only.
- Password hashing is the `hash` parameter of `CoreSchema.CreateUser`. It stands for Django's salted hasher; its salt and algorithm are not modelled.
- Concurrency and transactions: every `save()`/`delete()` is one atomic map update. Uniqueness under concurrent requests is the database's job and is not modelled.
- Timestamps (`auto_now_add`, `auto_now`, `date_joined`, `last_login`) depend on the clock and are not fields of the records.
- Image fields are plain strings (or an optional string for `profile_picture`). File storage is not modelled.
- Settings, security headers, CORS, Celery/Redis, email, logging and URL routing (`backend/urls.py`) are configuration and I/O, not part of this model.
- The nested relation fields the GraphQL types also expose are not modelled: `user.reviews`, `user.user_profile`, `category.products`, `product.reviews`, and the user object inside a profile or review.
- List queries return the tables as maps from id to row. The source's lists have no defined order, so the model keeps none.
- Explicit `null` arguments (`phone: null`, `firstName: null`) are not modelled. The model's argument values are strings, and such a call would fail in the database with a not-null violation.
- Price arguments with more than two decimals: the argument is already integer cents, so Django's rounding to two places is not modelled.
- The limits and validators of Django's own `AbstractUser` fields are not part of this model: username 150, names 150, email 254, the username character set. Only its unique username is modelled.
- Error messages are reduced to their kind (`Base.Error`).
- No resolver creates reviews or profiles. `Tables.Store.InsertReview` models the validated insert (`full_clean` then `save`). A bare `save()` would check neither the rating choices nor the blank comment, and the database would store such a review.
- The model fixes the production PostgreSQL backend. The local settings (`backend/settings/local.py:6-11`) select SQLite instead, which enforces neither `varchar(n)` lengths nor `numeric(10,2)`. On SQLite, writes that the store refuses with `DataError` would be stored as given.
- Tables.Store.InsertUser, Tables.Store.InsertProfile, Tables.Store.InsertProduct: a `DataError` is modelled as drawing no id. Whether PostgreSQL draws the sequence value before it coerces an overlong value depends on the order in which it evaluates the row, so the model assumes the value is refused first.
- Ids are unbounded integers in the store. The 32-bit limit of an `AutoField` sequence is not modelled. The GraphQL id arguments are 32-bit (`Int32`), as graphene's `Int` is.
- Image columns (`ImageField`, `varchar(100)`) are held as given: their length limit is not modelled, because the file storage chooses those names and no resolver in this model writes one. The NUL rule does apply to them.
- Characters are Unicode scalar values. PostgreSQL counts a `varchar` length the same way for a UTF-8 database; other encodings are not modelled.
