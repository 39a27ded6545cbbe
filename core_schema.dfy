/** The identity half of the GraphQL API: the user projection, the queries
    `users`, `userById`, `me` and `profiles`, and the mutations `createUser`
    and `updateUser`, each with the caller passed in explicitly. */
module CoreSchema {
  import opened Base
  import opened Accounts
  import opened Tables

  /** `UserType`: a user as the API shows it.  `password`, `groups`,
      `user_permissions` and `is_superuser` are excluded, so this type has
      no place for them. */
  datatype UserView = UserView(
    id: int,
    username: string,
    email: string,
    firstName: string,
    lastName: string,
    isStaff: bool,
    isActive: bool,
    phone: string,
    bio: string,
    profilePicture: Option<string>)

  function View(id: int, u: User): UserView {
    UserView(id, u.username, u.email, u.firstName, u.lastName, u.isStaff, u.isActive,
             u.phone, u.bio, u.profilePicture)
  }

  /** `u` and `u'` differ at most in the excluded fields. */
  predicate SameExceptHidden(u: User, u': User) {
    u.(password := u'.password, groups := u'.groups, userPermissions := u'.userPermissions,
       isSuperuser := u'.isSuperuser) == u'
  }

  /** The projection reveals nothing of the excluded fields and everything
      else: two rows project alike exactly when they differ only there. */
  lemma ViewShowsAllButHidden(id: int, u: User, u': User)
    ensures View(id, u) == View(id, u') <==> SameExceptHidden(u, u')
  {
  }

  // ---- queries ----------------------------------------------------------

  /** `users`: every stored user, projected. */
  function Users(users: map<int, User>): (r: map<int, UserView>)
    ensures r.Keys == users.Keys
    ensures forall k :: k in r ==> r[k] == View(k, users[k])
  {
    map k | k in users :: View(k, users[k])
  }

  /** `userById(id)`: `User.objects.get(id=id)`, which raises when no row has that id. */
  function UserById(users: map<int, User>, id: Int32): (r: Result<UserView>)
    ensures r.Ok? <==> id in users
    ensures r.Ok? ==> r.value == View(id, users[id])
    ensures r.Err? ==> r.error == NotFound
  {
    if id in users then Ok(View(id, users[id])) else Err(NotFound)
  }

  /** `userById` finds exactly the users that `users` lists, with the same projection. */
  lemma UserByIdAgreesWithUsers(users: map<int, User>, id: Int32)
    ensures UserById(users, id).Ok? <==> id in Users(users)
    ensures id in Users(users) ==> UserById(users, id) == Ok(Users(users)[id])
  {
  }

  /** `me`: the caller's own record; an anonymous caller is refused. */
  function Me(caller: Caller): (r: Result<UserView>)
    ensures r.Ok? <==> IsAuthenticated(caller)
    ensures r.Err? ==> r.error == Unauthenticated
    ensures r.Ok? ==> r.value == View(caller.id, caller.account) && r.value.id == caller.id
  {
    match caller
    case Anonymous => Err(Unauthenticated)
    case Authenticated(id, account) => Ok(View(id, account))
  }

  /** For a caller whose record is the stored one, `me` is `userById` of the caller's id. */
  lemma MeIsOwnRecord(users: map<int, User>, caller: Caller)
    requires caller.Authenticated? && caller.id in users && users[caller.id] == caller.account
    ensures Me(caller) == UserById(users, caller.id)
  {
  }

  /** `profiles`: every stored profile, unfiltered. */
  function Profiles(profiles: map<int, Profile>): (r: map<int, Profile>)
    ensures r.Keys == profiles.Keys
    ensures forall k :: k in r ==> r[k] == profiles[k]
  {
    profiles
  }

  // ---- createUser -------------------------------------------------------

  /** `createUser`: builds the record, stores `hash(password)` through
      `set_password` and saves it.  `hash` stands for Django's salted
      password hasher.  The driver refuses a NUL in any of the strings, and
      the database refuses a username already in use.  The new row has an
      empty phone, so no column cuts anything. */
  method CreateUser(store: Store, hash: string -> string, username: string, email: string,
                    password: string, firstName: Option<string>, lastName: Option<string>)
    returns (r: Result<UserView>)
    requires store.Valid()
    modifies store`users, store`nextUserId
    ensures store.Valid()
    ensures UserHasNul(NewUser(username, email, hash(password), firstName, lastName)) ==>
      && r == Err(NulCharacter)
      && store.users == old(store.users)
      && store.nextUserId == old(store.nextUserId)
    ensures !UserHasNul(NewUser(username, email, hash(password), firstName, lastName)) &&
            UsernameTaken(old(store.users), username) ==>
      && r == Err(DuplicateUsername)
      && store.users == old(store.users)
      && store.nextUserId == old(store.nextUserId) + 1
    ensures !UserHasNul(NewUser(username, email, hash(password), firstName, lastName)) &&
            !UsernameTaken(old(store.users), username) ==>
      var id := old(store.nextUserId);
      && id !in old(store.users)
      && store.users == old(store.users)[id := NewUser(username, email, hash(password), firstName, lastName)]
      && |store.users| == |old(store.users)| + 1
      && store.users[id].password == hash(password)
      && r == Ok(View(id, store.users[id]))
      && store.nextUserId == id + 1
  {
    var u := NewUser(username, email, hash(password), firstName, lastName);
    var saved := store.InsertUser(u);
    match saved
    case Ok(id) => r := Ok(View(id, u));
    case Err(e) => r := Err(e);
  }

  // ---- updateUser -------------------------------------------------------

  /** The arguments `updateUser` declares besides `user_id`; the API
      refuses any other. */
  datatype UserField = Phone | Bio

  function Field(u: User, f: UserField): string {
    match f
    case Phone => u.phone
    case Bio => u.bio
  }

  function SetField(u: User, f: UserField, value: string): User {
    match f
    case Phone => u.(phone := value)
    case Bio => u.(bio := value)
  }

  /** The record after the supplied arguments are assigned to it. */
  function Assigned(u: User, kwargs: map<UserField, string>): (r: User)
    ensures forall f :: Field(r, f) == (if f in kwargs then kwargs[f] else Field(u, f))
    ensures r.(phone := u.phone, bio := u.bio) == u
  {
    u.(phone := if Phone in kwargs then kwargs[Phone] else u.phone,
       bio := if Bio in kwargs then kwargs[Bio] else u.bio)
  }

  /** `for key, value in kwargs.items(): setattr(user_to_update, key, value)`. */
  method SetAttributes(u: User, kwargs: map<UserField, string>) returns (r: User)
    ensures r == Assigned(u, kwargs)
  {
    r := u;
    var pending := kwargs.Keys;
    while pending != {}
      invariant pending <= kwargs.Keys
      invariant forall f :: f !in pending ==> Field(r, f) == Field(Assigned(u, kwargs), f)
      invariant forall f :: f in pending ==> Field(r, f) == Field(u, f)
      invariant r.(phone := u.phone, bio := u.bio) == u
      decreases pending
    {
      var key :| key in pending;
      r := SetField(r, key, kwargs[key]);
      pending := pending - {key};
    }
    assert r.phone == Field(r, Phone) && r.bio == Field(r, Bio);
  }

  /** The two checks `updateUser` makes before it touches the store. */
  function UpdateGate(caller: Caller, userId: Int32): (r: Option<Error>)
    ensures r == None <==> IsAuthenticated(caller) && (caller.id == userId || IsStaff(caller))
    ensures !IsAuthenticated(caller) ==> r == Some(Unauthenticated)
    ensures IsAuthenticated(caller) && caller.id != userId && !IsStaff(caller) ==> r == Some(Forbidden)
  {
    if !IsAuthenticated(caller) then Some(Unauthenticated)
    else if caller.id != userId && !caller.account.isStaff then Some(Forbidden)
    else None
  }

  /** `updateUser(user_id, phone?, bio?)`: an anonymous caller is refused, a
      caller other than the owner who is not staff is refused, a missing
      user is not found; otherwise only the supplied fields of that one row
      change and the row is saved.  The answer is the assigned record as it
      is in memory, while the table holds the phone as its column cut it. */
  method UpdateUser(store: Store, caller: Caller, userId: Int32, kwargs: map<UserField, string>)
    returns (r: Result<UserView>)
    requires store.Valid()
    modifies store`users
    ensures store.Valid()
    ensures UpdateGate(caller, userId).Some? ==>
      r == Err(UpdateGate(caller, userId).value) && store.users == old(store.users)
    ensures UpdateGate(caller, userId) == None && userId !in old(store.users) ==>
      r == Err(NotFound) && store.users == old(store.users)
    ensures UpdateGate(caller, userId) == None && userId in old(store.users) ==>
      var u := Assigned(old(store.users)[userId], kwargs);
      if UserHasNul(u) then
        r == Err(NulCharacter) && store.users == old(store.users)
      else if !UserColumnsTake(u) then
        r == Err(DataError) && store.users == old(store.users)
      else
        r == Ok(View(userId, u)) && store.users == old(store.users)[userId := StoredUser(u)]
    ensures store.users.Keys == old(store.users).Keys
    ensures forall k :: k in old(store.users) && k != userId ==> store.users[k] == old(store.users)[k]
  {
    var gate := UpdateGate(caller, userId);
    if gate.Some? {
      return Err(gate.value);
    }
    if userId !in store.users {
      return Err(NotFound);
    }
    var target := SetAttributes(store.users[userId], kwargs);
    assert !UsernameTakenByOther(store.users, target.username, userId);
    var saved := store.SaveUser(userId, target);
    match saved
    case Ok(_) => r := Ok(View(userId, target));
    case Err(e) => r := Err(e);
  }

  /** Registering a user and reading it back: the stored row has the given
      username and email and the hashed password, `userById` returns what
      `createUser` returned, a second registration under the same username
      adds nothing, and a username holding a NUL is refused before an id is
      drawn. */
  method RegisterScenario(hash: string -> string)
    requires !HasNul(hash("secret")) && !HasNul(hash("pw"))
  {
    var store := new Store();
    assert !HasNul("ada") && !HasNul("ada@example.com") && !HasNul("other@example.com") && !HasNul("");
    var r := CreateUser(store, hash, "ada", "ada@example.com", "secret", None, None);
    assert r == Ok(View(1, store.users[1]));
    assert UserById(store.users, 1) == r;
    assert store.users[1].username == "ada" && store.users[1].password == hash("secret");
    var again := CreateUser(store, hash, "ada", "other@example.com", "pw", None, None);
    assert again == Err(DuplicateUsername) && |store.users| == 1;
    assert store.nextUserId == 3;
    assert HasNul("a\0b") by { assert "a\0b"[1] == '\0'; }
    var nul := CreateUser(store, hash, "a\0b", "b@example.com", "pw", None, None);
    assert nul == Err(NulCharacter) && |store.users| == 1 && store.nextUserId == 3;
  }

  /** Updating one's own phone: a value 20 characters long followed by
      spaces is taken and stored cut to 20 characters, while the answer
      shows the value as given; a bio holding a NUL is refused and the row
      stays as it was. */
  method UpdatePhoneScenario(hash: string -> string)
    requires !HasNul(hash("secret"))
  {
    var store := new Store();
    assert !HasNul("ada") && !HasNul("ada@example.com") && !HasNul("");
    var created := CreateUser(store, hash, "ada", "ada@example.com", "secret", None, None);
    var owner := Authenticated(1, store.users[1]);
    var digits := "01234567890123456789";
    var padded := digits + "   ";
    assert !HasNul(padded) by {
      forall i | 0 <= i < |padded| ensures padded[i] != '\0' {
        if i < 20 { assert padded[i] == digits[i]; }
      }
    }
    var updated := UpdateUser(store, owner, 1, map[Phone := padded]);
    assert updated.Ok? && updated.value.phone == padded;
    assert padded[..20] == digits;
    assert store.users[1].phone == digits;
    var before := store.users;
    assert HasNul("a\0b") by { assert "a\0b"[1] == '\0'; }
    var refused := UpdateUser(store, owner, 1, map[Bio := "a\0b"]);
    assert UserHasNul(Assigned(before[1], map[Bio := "a\0b"]));
    assert refused == Err(NulCharacter) && store.users == before;
  }
}
