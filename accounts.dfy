/** The identity records: Django's user with the project's extra fields, the
    optional one-to-one profile, their text renderings and the table-level
    rules (unique usernames, one profile per user, cascade on delete). */
module Accounts {
  import opened Base

  /** A row of the user table.  `password` holds what `set_password` stored,
      never the raw password; `groups` and `userPermissions` are the ids of
      the many-to-many relations. */
  datatype User = User(
    password: string,
    username: string,
    email: string,
    firstName: string,
    lastName: string,
    isStaff: bool,
    isSuperuser: bool,
    isActive: bool,
    phone: string,
    bio: string,
    profilePicture: Option<string>,
    groups: set<int>,
    userPermissions: set<int>)

  /** A row of the profile table; `userId` is the one-to-one link. */
  datatype Profile = Profile(
    userId: int,
    address: string,
    city: string,
    country: string,
    postalCode: string)

  /** Who sent the request, as the authentication layer resolved it.  An
      authenticated caller carries the user record loaded for the request. */
  datatype Caller = Anonymous | Authenticated(id: Int32, account: User)

  predicate IsAuthenticated(c: Caller) {
    c.Authenticated?
  }

  /** `user.is_staff`; an anonymous user's is always false. */
  predicate IsStaff(c: Caller) {
    c.Authenticated? && c.account.isStaff
  }

  const MaxPhone: nat := 20
  const MaxCity: nat := 100
  const MaxCountry: nat := 100
  const MaxPostalCode: nat := 20

  /** Whether any text column of `u` holds a NUL character. */
  predicate UserHasNul(u: User) {
    || HasNul(u.password) || HasNul(u.username) || HasNul(u.email)
    || HasNul(u.firstName) || HasNul(u.lastName) || HasNul(u.phone) || HasNul(u.bio)
    || (u.profilePicture.Some? && HasNul(u.profilePicture.value))
  }

  /** Whether the `varchar` columns of the user table take `u`. */
  predicate UserColumnsTake(u: User) {
    VarcharTakes(u.phone, MaxPhone)
  }

  /** A user row as the table holds it. */
  predicate UserFits(u: User) {
    |u.phone| <= MaxPhone && !UserHasNul(u)
  }

  /** The row the user table holds once it has taken `u`. */
  function StoredUser(u: User): (r: User)
    ensures r.phone == Varchar(u.phone, MaxPhone)
    ensures r.(phone := u.phone) == u
    ensures !UserHasNul(u) ==> UserFits(r)
    ensures |u.phone| <= MaxPhone ==> r == u
  {
    u.(phone := Varchar(u.phone, MaxPhone))
  }

  /** Whether any text column of `p` holds a NUL character. */
  predicate ProfileHasNul(p: Profile) {
    HasNul(p.address) || HasNul(p.city) || HasNul(p.country) || HasNul(p.postalCode)
  }

  /** Whether the `varchar` columns of the profile table take `p`. */
  predicate ProfileColumnsTake(p: Profile) {
    && VarcharTakes(p.city, MaxCity)
    && VarcharTakes(p.country, MaxCountry)
    && VarcharTakes(p.postalCode, MaxPostalCode)
  }

  /** A profile row as the table holds it. */
  predicate ProfileFits(p: Profile) {
    && |p.city| <= MaxCity && |p.country| <= MaxCountry && |p.postalCode| <= MaxPostalCode
    && !ProfileHasNul(p)
  }

  /** The row the profile table holds once it has taken `p`. */
  function StoredProfile(p: Profile): (r: Profile)
    ensures r.city == Varchar(p.city, MaxCity) && r.country == Varchar(p.country, MaxCountry)
    ensures r.postalCode == Varchar(p.postalCode, MaxPostalCode)
    ensures r.(city := p.city, country := p.country, postalCode := p.postalCode) == p
    ensures !ProfileHasNul(p) ==> ProfileFits(r)
    ensures |p.city| <= MaxCity && |p.country| <= MaxCountry && |p.postalCode| <= MaxPostalCode ==> r == p
  {
    p.(city := Varchar(p.city, MaxCity), country := Varchar(p.country, MaxCountry),
       postalCode := Varchar(p.postalCode, MaxPostalCode))
  }

  /** The record `User(username=..., email=..., **kwargs)` followed by
      `set_password`, with every other field at its declared default. */
  function NewUser(username: string, email: string, hashed: string,
                   firstName: Option<string>, lastName: Option<string>): (u: User)
    ensures u.username == username && u.email == email && u.password == hashed
    ensures u.firstName == firstName.GetOr("") && u.lastName == lastName.GetOr("")
    ensures !u.isStaff && !u.isSuperuser && u.isActive
    ensures u.phone == "" && u.bio == "" && u.profilePicture == None
    ensures u.groups == {} && u.userPermissions == {}
    ensures UserHasNul(u) <==>
      || HasNul(username) || HasNul(email) || HasNul(hashed)
      || HasNul(firstName.GetOr("")) || HasNul(lastName.GetOr(""))
    ensures |u.phone| <= MaxPhone && UserColumnsTake(u)
  {
    User(hashed, username, email, firstName.GetOr(""), lastName.GetOr(""),
         false, false, true, "", "", None, {}, {})
  }

  predicate UsernameTaken(users: map<int, User>, name: string) {
    exists k :: k in users && users[k].username == name
  }

  predicate UsernamesUnique(users: map<int, User>) {
    forall a, b :: a in users && b in users && users[a].username == users[b].username ==> a == b
  }

  /** The ids of the profile rows that belong to user `uid`. */
  function ProfilesOf(profiles: map<int, Profile>, uid: int): set<int> {
    set k | k in profiles && profiles[k].userId == uid
  }

  /** The one-to-one constraint: no two profile rows share a user. */
  predicate OneProfilePerUser(profiles: map<int, Profile>) {
    forall a, b :: a in profiles && b in profiles && profiles[a].userId == profiles[b].userId ==> a == b
  }

  predicate ProfilesValid(profiles: map<int, Profile>, userIds: set<int>) {
    && OneProfilePerUser(profiles)
    && (forall k :: k in profiles ==> profiles[k].userId in userIds && ProfileFits(profiles[k]))
  }

  /** Under the one-to-one constraint a user has at most one profile. */
  lemma {:induction false} AtMostOneProfile(profiles: map<int, Profile>, uid: int)
    requires OneProfilePerUser(profiles)
    ensures |ProfilesOf(profiles, uid)| <= 1
  {
    var s := ProfilesOf(profiles, uid);
    if k :| k in profiles && profiles[k].userId == uid {
      assert s == {k} by {
        forall j | j in s ensures j == k {
          assert profiles[j].userId == profiles[k].userId;
        }
      }
    } else {
      assert s == {} by {
        forall j | j in s ensures false {
        }
      }
    }
  }

  /** The profile table after user `uid` is deleted (`on_delete=CASCADE`). */
  function ProfilesWithoutUser(profiles: map<int, Profile>, uid: int): (r: map<int, Profile>)
    ensures forall k :: k in r <==> k in profiles && k !in ProfilesOf(profiles, uid)
    ensures forall k :: k in r ==> r[k] == profiles[k]
    ensures ProfilesOf(r, uid) == {}
  {
    map k | k in profiles && profiles[k].userId != uid :: profiles[k]
  }

  /** Deleting a user keeps every remaining profile valid for the remaining users. */
  lemma ProfilesCascadeValid(profiles: map<int, Profile>, userIds: set<int>, uid: int)
    requires ProfilesValid(profiles, userIds)
    ensures ProfilesValid(ProfilesWithoutUser(profiles, uid), userIds - {uid})
  {
  }

  /** `User.__str__`. */
  function UserStr(u: User): (s: string)
    ensures s == u.email
  {
    u.email
  }

  const ProfilePrefix: string := "Profile of "

  /** `Profile.__str__`: the email of the profile's own user, looked up in
      the user table. */
  function ProfileStr(p: Profile, users: map<int, User>): (s: string)
    requires p.userId in users
    ensures |s| == |ProfilePrefix| + |users[p.userId].email|
    ensures s[..|ProfilePrefix|] == ProfilePrefix
    ensures s[|ProfilePrefix|..] == UserStr(users[p.userId])
  {
    ProfilePrefix + users[p.userId].email
  }

  /** Two profiles render alike exactly when their users have the same email. */
  lemma {:induction false} ProfileStrNamesOwner(p: Profile, q: Profile, users: map<int, User>)
    requires p.userId in users && q.userId in users
    ensures ProfileStr(p, users) == ProfileStr(q, users) <==> users[p.userId].email == users[q.userId].email
  {
    if ProfileStr(p, users) == ProfileStr(q, users) {
      assert users[p.userId].email == ProfileStr(p, users)[|ProfilePrefix|..];
    }
  }
}
