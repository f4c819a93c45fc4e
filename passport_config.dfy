/** Identity reconciliation (backend/src/config/passport.js): the local
    strategy's verify callback, and the Google and Facebook callbacks that
    link a social identity to the account with the same email or create one.

    The bcrypt comparison is the `compare` parameter (its answer for the
    stored hash); the provider profile is an input. The merge policy is the
    lenient one the code implements: any account without a `providerId` is
    linked, whatever its `authProvider`, and an account already linked
    (to any identity) is returned as it is. */
module Passport {
  import opened Common
  import opened UserModel
  import opened Store

  const InvalidCredentials := "Credenciales inválidas"
  const UseSocialLogin := "Por favor inicie sesión con su red social"

  /** What `matchPassword` does: resolve true, resolve false, or throw. */
  datatype PasswordCheck = Match | Mismatch | CheckFailed

  /** `done(null, user)`, `done(null, false, { message })`, or `done(err)`. */
  datatype LocalResult =
    | LocalAuthenticated(id: UserId, user: User)
    | LocalRejected(message: string)
    | LocalError

  /** The local strategy: the account with that email, then a stored
      password, then the comparison. */
  function LocalVerify(db: Db, email: string, compare: string -> PasswordCheck): (r: LocalResult)
    ensures r.LocalAuthenticated? ==>
      && r.id in db.users && r.user == db.users[r.id]
      && (DbValid(db) ==> r.user.email == email)
  {
    match FindByEmail(db, email)
    case None => LocalRejected(InvalidCredentials)
    case Some(id) =>
      var user := db.users[id];
      if !Truthy(user.password) then LocalRejected(UseSocialLogin)
      else match compare(user.password.value)
        case Match => LocalAuthenticated(id, user)
        case Mismatch => LocalRejected(InvalidCredentials)
        case CheckFailed => LocalError
  }

  /** An unknown email and a wrong password are indistinguishable: both
      give the same message. */
  lemma LocalUnknownLikeWrongPassword(db: Db, unknown: string, known: string, compare: string -> PasswordCheck)
    requires DbValid(db)
    requires FindByEmail(db, unknown).None?
    requires FindByEmail(db, known).Some?
    requires var u := db.users[FindByEmail(db, known).value];
             Truthy(u.password) && compare(u.password.value) == Mismatch
    ensures LocalVerify(db, unknown, compare) == LocalVerify(db, known, compare)
    ensures LocalVerify(db, unknown, compare) == LocalRejected(InvalidCredentials)
  {
  }

  /** An account without a stored password (a social-only one) is sent to
      social login before any comparison: the answer does not depend on
      what the comparison would say. */
  lemma LocalSocialOnlyAccount(db: Db, email: string, compare: string -> PasswordCheck, other: string -> PasswordCheck)
    requires FindByEmail(db, email).Some?
    requires !Truthy(db.users[FindByEmail(db, email).value].password)
    ensures LocalVerify(db, email, compare) == LocalRejected(UseSocialLogin)
    ensures LocalVerify(db, email, compare) == LocalVerify(db, email, other)
  {
  }

  /** Authentication succeeds exactly for an existing account with a stored
      password that the comparison accepts. */
  lemma LocalAuthenticatesOnlyOnMatch(db: Db, email: string, compare: string -> PasswordCheck)
    requires DbValid(db)
    ensures LocalVerify(db, email, compare).LocalAuthenticated? <==>
      exists id :: id in db.users && db.users[id].email == email
                   && Truthy(db.users[id].password) && compare(db.users[id].password.value) == Match
  {
    if LocalVerify(db, email, compare).LocalAuthenticated? {
      var id := FindByEmail(db, email).value;
      assert id in db.users && db.users[id].email == email;
    }
  }

  // ------------------------------------------------------ social login

  datatype OAuthProvider = GoogleOAuth | FacebookOAuth

  function ProviderOf(p: OAuthProvider): AuthProvider {
    if p == GoogleOAuth then Google else Facebook
  }

  /** The profile fields the callbacks read: `profile.id` and the first
      email, absent when the provider sent none. */
  datatype SocialProfile = SocialProfile(id: string, email: Option<string>)

  datatype SocialResult = SocialAuthenticated(id: UserId, user: User) | SocialError

  /** The email the callback goes on with: Google's callback reads
      `profile.emails[0].value`, which throws without emails; Facebook's
      stops with an error unless the email is truthy. Either way this is
      decided before the store is consulted. */
  function ProfileEmail(provider: OAuthProvider, profile: SocialProfile): (r: Option<string>)
    ensures r.Some? ==> profile.email == r
    ensures provider == FacebookOAuth ==> (r.Some? <==> Truthy(profile.email))
    ensures provider == GoogleOAuth ==> (r.Some? <==> profile.email.Some?)
  {
    if provider == FacebookOAuth && !Truthy(profile.email) then None else profile.email
  }

  /** The account linked to the social identity. */
  function Linked(u: User, provider: OAuthProvider, profile: SocialProfile): User {
    u.(authProvider := ProviderOf(provider), providerId := Some(profile.id))
  }

  /** The document `User.create` receives for a new social account. */
  function SocialDoc(provider: OAuthProvider, email: string, profile: SocialProfile): UserDoc {
    UserDoc(Some(email), None, Some(AuthProviderName(ProviderOf(provider))), Some(profile.id),
            Some("user"), Some("free"))
  }

  /** The Google and Facebook callbacks: find the account by email; link it
      if it has no provider id, return it as it is if it has one; create a
      new account otherwise. */
  function SocialLoginSpec(db: Db, provider: OAuthProvider, profile: SocialProfile, now: int): Outcome<SocialResult>
    requires DbValid(db)
  {
    match ProfileEmail(provider, profile)
    case None => Outcome(SocialError, db)
    case Some(email) =>
      match FindByEmail(db, email)
      case Some(id) =>
        var user := db.users[id];
        if !Truthy(user.providerId) then
          var linked := Linked(user, provider, profile);
          Outcome(SocialAuthenticated(id, linked), SetUser(db, id, linked))
        else Outcome(SocialAuthenticated(id, user), db)
      case None =>
        match CreateUser(SocialDoc(provider, email, profile), now)
        case Failure(_) => Outcome(SocialError, db)
        case Success(user) =>
          var (id, after) := AddUser(db, user);
          Outcome(SocialAuthenticated(id, user), after)
  }

  /** The callback against the store. */
  method SocialLogin(store: Database, provider: OAuthProvider, profile: SocialProfile, now: int) returns (r: SocialResult)
    requires store.Valid()
    modifies store
    ensures store.Valid()
    ensures Outcome(r, store.Snapshot()) == SocialLoginSpec(old(store.Snapshot()), provider, profile, now)
  {
    var email := ProfileEmail(provider, profile);
    if email.None? {
      return SocialError;
    }
    var found := FindByEmail(store.Snapshot(), email.value);
    if found.Some? {
      var user := store.users[found.value];
      if !Truthy(user.providerId) {
        user := Linked(user, provider, profile);
        store.SaveUser(found.value, user);
      }
      return SocialAuthenticated(found.value, user);
    }
    var created := CreateUser(SocialDoc(provider, email.value, profile), now);
    if created.Failure? {
      return SocialError;
    }
    var id := store.InsertUser(created.value);
    r := SocialAuthenticated(id, created.value);
  }

  /** Without a usable email the callback fails, writes nothing, and the
      answer is the same whatever the store holds. */
  lemma SocialNeedsEmail(db: Db, other: Db, provider: OAuthProvider, profile: SocialProfile, now: int)
    requires DbValid(db) && DbValid(other)
    requires provider == GoogleOAuth ==> profile.email.None?
    requires provider == FacebookOAuth ==> !Truthy(profile.email)
    ensures SocialLoginSpec(db, provider, profile, now) == Outcome(SocialError, db)
    ensures SocialLoginSpec(db, provider, profile, now).response == SocialLoginSpec(other, provider, profile, now).response
  {
  }

  /** An existing account without a provider id is linked: it gets this
      provider and the profile's id, and keeps its email, password, role,
      subscription and every other field; no other account changes. */
  lemma SocialLinksUnlinkedAccount(db: Db, provider: OAuthProvider, profile: SocialProfile, now: int)
    requires DbValid(db)
    requires ProfileEmail(provider, profile).Some?
    requires var f := FindByEmail(db, profile.email.value); f.Some? && !Truthy(db.users[f.value].providerId)
    ensures var id := FindByEmail(db, profile.email.value).value;
      var old_ := db.users[id];
      var o := SocialLoginSpec(db, provider, profile, now);
      && o.response.SocialAuthenticated? && o.response.id == id
      && o.db.users == db.users[id := o.response.user]
      && o.db.byEmail == db.byEmail && o.db.ledger == db.ledger && o.db.events == db.events
      && o.response.user.authProvider == ProviderOf(provider)
      && o.response.user.providerId == Some(profile.id)
      && o.response.user.(authProvider := old_.authProvider, providerId := old_.providerId) == old_
      && o.response.user.role == old_.role
      && o.response.user.subscriptionStatus == old_.subscriptionStatus
      && o.response.user.subscriptionExpiry == old_.subscriptionExpiry
  {
  }

  /** An account that already has a provider id is returned unchanged and
      nothing is written, even when it is linked to another provider or
      another identity. */
  lemma SocialKeepsLinkedAccount(db: Db, provider: OAuthProvider, profile: SocialProfile, now: int)
    requires DbValid(db)
    requires ProfileEmail(provider, profile).Some?
    requires var f := FindByEmail(db, profile.email.value); f.Some? && Truthy(db.users[f.value].providerId)
    ensures var id := FindByEmail(db, profile.email.value).value;
      SocialLoginSpec(db, provider, profile, now) == Outcome(SocialAuthenticated(id, db.users[id]), db)
  {
  }

  /** An unknown (non-empty) email creates exactly one account, under a
      fresh id, with this provider and the profile's id, role user, status
      free, no password and no expiry; nothing already stored changes. */
  lemma SocialCreatesAccount(db: Db, provider: OAuthProvider, profile: SocialProfile, now: int)
    requires DbValid(db)
    requires Truthy(profile.email) && FindByEmail(db, profile.email.value).None?
    ensures var o := SocialLoginSpec(db, provider, profile, now);
      && o.response.SocialAuthenticated?
      && o.response.id !in db.users
      && o.db.users == db.users[o.response.id := o.response.user]
      && o.db.ledger == db.ledger && o.db.events == db.events
      && o.response.user.email == profile.email.value
      && o.response.user.authProvider == ProviderOf(provider)
      && o.response.user.providerId == Some(profile.id)
      && o.response.user.role == Member && o.response.user.subscriptionStatus == Free
      && o.response.user.password.None? && o.response.user.subscriptionExpiry.None?
    ensures DbValid(SocialLoginSpec(db, provider, profile, now).db)
  {
    var doc := SocialDoc(provider, profile.email.value, profile);
    assert CreateUser(doc, now).Success?;
    var user := CreateUser(doc, now).value;
    assert user.role == Member && user.subscriptionStatus == Free && user.authProvider == ProviderOf(provider);
  }

  /** Signing in again with the same profile finds the same account and
      writes nothing more. */
  lemma {:induction false} SocialLoginRepeatable(db: Db, provider: OAuthProvider, profile: SocialProfile, now: int, later: int)
    requires DbValid(db)
    requires SocialLoginSpec(db, provider, profile, now).response.SocialAuthenticated?
    ensures var o := SocialLoginSpec(db, provider, profile, now);
      var again := SocialLoginSpec(o.db, provider, profile, later);
      && again == Outcome(SocialAuthenticated(o.response.id, o.response.user), o.db)
  {
    var o := SocialLoginSpec(db, provider, profile, now);
    var email := ProfileEmail(provider, profile).value;
    var id := o.response.id;
    var user := o.response.user;
    match FindByEmail(db, email)
    case Some(_) =>
    case None =>
      assert user == CreateUser(SocialDoc(provider, email, profile), now).value;
    // The account is stored, found again by its email, and either keeps
    // its provider id or is linked to exactly what it already holds.
    assert o.db.users[id] == user && FindByEmail(o.db, email) == Some(id);
    if !Truthy(user.providerId) {
      assert Linked(user, provider, profile) == user;
      assert o.db.users[id := user] == o.db.users;
    }
  }
}
