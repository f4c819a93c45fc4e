/** Registration, login answers and OAuth redirects
    (backend/src/controllers/authController.js).

    Signing a token is the `sign` parameter (the token claims are modelled;
    the signature is not); hashing the password is the `hashed` parameter,
    the value the pre-save hook stores. The configured front-end URL is the
    `frontendUrl` parameter. */
module AuthController {
  import opened Common
  import opened UserModel
  import opened Store
  import opened Passport

  /** A field of the JSON body: a string, or any other JSON value. */
  datatype BodyValue = Text(s: string) | NonText

  const MinPasswordLength: nat := 8

  /** What `generateToken(id, role)` signs (the issue time aside). */
  datatype TokenClaims = TokenClaims(id: UserId, role: Role)

  /** The account summary both `register` and `login` return. */
  datatype UserSummary = UserSummary(id: UserId, email: string, role: Role, subscriptionStatus: SubscriptionStatus)

  function Summary(id: UserId, u: User): UserSummary {
    UserSummary(id, u.email, u.role, u.subscriptionStatus)
  }

  datatype RegisterResponse =
    | InvalidEmail
    | PasswordTooShort
    | UserExists
    | Registered(claims: TokenClaims, user: UserSummary)
    | RegisterError

  function RegisterHttpStatus(r: RegisterResponse): int {
    match r
    case InvalidEmail => 400
    case PasswordTooShort => 400
    case UserExists => 400
    case Registered(_, _) => 201
    case RegisterError => 500
  }

  /** `!email || typeof email !== 'string'` rejects the body's email. */
  predicate ValidEmailField(email: Option<BodyValue>) {
    email.Some? && email.value.Text? && email.value.s != ""
  }

  /** The password field must be a string of at least 8 characters. */
  predicate ValidPasswordField(password: Option<BodyValue>) {
    password.Some? && password.value.Text? && |password.value.s| >= MinPasswordLength
  }

  /** The document `User.create` receives, with the password as hashed. */
  function LocalDoc(email: string, hashed: string): UserDoc {
    UserDoc(Some(email), Some(hashed), Some("local"), None, None, None)
  }

  /** `register`: the email field, then the password field, then the
      duplicate check, then the insert (schema defaults apply), answering
      with a token for the new account and its summary. */
  function RegisterSpec(db: Db, email: Option<BodyValue>, password: Option<BodyValue>, hashed: string, now: int): Outcome<RegisterResponse>
    requires DbValid(db)
  {
    if !ValidEmailField(email) then Outcome(InvalidEmail, db)
    else if !ValidPasswordField(password) then Outcome(PasswordTooShort, db)
    else
      var address := email.value.s;
      if FindByEmail(db, address).Some? then Outcome(UserExists, db)
      else match CreateUser(LocalDoc(address, hashed), now)
        case Failure(_) => Outcome(RegisterError, db)
        case Success(user) =>
          var (id, after) := AddUser(db, user);
          Outcome(Registered(TokenClaims(id, user.role), Summary(id, user)), after)
  }

  /** The handler against the store. */
  method Register(store: Database, email: Option<BodyValue>, password: Option<BodyValue>, hashed: string, now: int)
    returns (r: RegisterResponse)
    requires store.Valid()
    modifies store
    ensures store.Valid()
    ensures Outcome(r, store.Snapshot()) == RegisterSpec(old(store.Snapshot()), email, password, hashed, now)
  {
    if !ValidEmailField(email) {
      return InvalidEmail;
    }
    if !ValidPasswordField(password) {
      return PasswordTooShort;
    }
    var address := email.value.s;
    var existing := FindByEmail(store.Snapshot(), address);
    if existing.Some? {
      return UserExists;
    }
    var created := CreateUser(LocalDoc(address, hashed), now);
    if created.Failure? {
      return RegisterError;
    }
    var id := store.InsertUser(created.value);
    r := Registered(TokenClaims(id, created.value.role), Summary(id, created.value));
  }

  /** A missing, empty or non-string email is a 400 and nothing is written,
      whatever the password. */
  lemma RegisterRejectsBadEmail(db: Db, email: Option<BodyValue>, password: Option<BodyValue>, hashed: string, now: int)
    requires DbValid(db) && !ValidEmailField(email)
    ensures RegisterSpec(db, email, password, hashed, now) == Outcome(InvalidEmail, db)
    ensures RegisterHttpStatus(InvalidEmail) == 400
  {
  }

  /** A missing or non-string password, or one shorter than 8 characters,
      is a 400 and nothing is written. */
  lemma RegisterRejectsShortPassword(db: Db, email: string, password: Option<BodyValue>, hashed: string, now: int)
    requires DbValid(db) && email != ""
    requires password.None? || password.value.NonText? || |password.value.s| < MinPasswordLength
    ensures RegisterSpec(db, Some(Text(email)), password, hashed, now) == Outcome(PasswordTooShort, db)
  {
  }

  /** An email already registered is a 400 'El usuario ya existe' and no
      account is created. */
  lemma RegisterRejectsDuplicate(db: Db, email: string, password: string, hashed: string, now: int)
    requires DbValid(db) && email != "" && |password| >= MinPasswordLength
    requires exists id :: id in db.users && db.users[id].email == email
    ensures RegisterSpec(db, Some(Text(email)), Some(Text(password)), hashed, now) == Outcome(UserExists, db)
  {
  }

  /** A new email creates exactly one local account under a fresh id, with
      role user, status free and the hashed password; the answer is a 201
      whose token and summary name that account. */
  lemma RegisterCreatesLocalAccount(db: Db, email: string, password: string, hashed: string, now: int)
    requires DbValid(db) && email != "" && |password| >= MinPasswordLength
    requires forall id :: id in db.users ==> db.users[id].email != email
    ensures var o := RegisterSpec(db, Some(Text(email)), Some(Text(password)), hashed, now);
      && o.response.Registered?
      && var id := o.response.claims.id;
      && id !in db.users
      && o.db.users.Keys == db.users.Keys + {id}
      && (forall other :: other in db.users ==> o.db.users[other] == db.users[other])
      && o.db.users[id].email == email
      && o.db.users[id].authProvider == Local
      && o.db.users[id].password == Some(hashed)
      && o.db.users[id].role == Member && o.db.users[id].subscriptionStatus == Free
      && o.response.claims.role == Member
      && o.response.user == UserSummary(id, email, Member, Free)
      && o.db.ledger == db.ledger && o.db.events == db.events
    ensures DbValid(RegisterSpec(db, Some(Text(email)), Some(Text(password)), hashed, now).db)
  {
    assert FindByEmail(db, email).None?;
    var user := CreateUser(LocalDoc(email, hashed), now).value;
    assert user.role == Member && user.subscriptionStatus == Free && user.authProvider == Local;
  }

  // ------------------------------------------------------------- login

  datatype LoginResponse =
    | LoginServerError
    | Unauthorized(message: string)
    | LoggedIn(claims: TokenClaims, user: UserSummary)

  function LoginHttpStatus(r: LoginResponse): int {
    match r
    case LoginServerError => 500
    case Unauthorized(_) => 401
    case LoggedIn(_, _) => 200
  }

  /** The callback `login` hands to the local strategy: an error is a 500,
      no user is a 401 carrying the strategy's message, and an account is
      a 200 with its token and summary. */
  function LoginAnswer(result: LocalResult): (r: LoginResponse)
    ensures r.LoginServerError? <==> result.LocalError?
    ensures result.LocalRejected? ==> r == Unauthorized(result.message)
    ensures result.LocalAuthenticated? ==>
      r == LoggedIn(TokenClaims(result.id, result.user.role), Summary(result.id, result.user))
  {
    match result
    case LocalError => LoginServerError
    case LocalRejected(message) => Unauthorized(message)
    case LocalAuthenticated(id, user) => LoggedIn(TokenClaims(id, user.role), Summary(id, user))
  }

  /** Registering and then logging in with a password the stored hash
      accepts reaches the new account, with the same token claims and
      summary `register` returned. */
  lemma {:induction false} RegisterThenLogin(db: Db, email: string, password: string, hashed: string, now: int,
                                             compare: string -> PasswordCheck)
    requires DbValid(db) && email != "" && |password| >= MinPasswordLength && hashed != ""
    requires forall id :: id in db.users ==> db.users[id].email != email
    requires compare(hashed) == Match
    ensures var o := RegisterSpec(db, Some(Text(email)), Some(Text(password)), hashed, now);
      && o.response.Registered?
      && LoginAnswer(LocalVerify(o.db, email, compare)) == LoggedIn(o.response.claims, o.response.user)
  {
    RegisterCreatesLocalAccount(db, email, password, hashed, now);
    var o := RegisterSpec(db, Some(Text(email)), Some(Text(password)), hashed, now);
    var id := o.response.claims.id;
    assert FindByEmail(o.db, email) == Some(id);
  }

  /** Every failed login gives one of two messages, the one for unknown
      accounts and wrong passwords alike, or the social-login hint. */
  lemma LoginRejections(db: Db, email: string, compare: string -> PasswordCheck)
    ensures var r := LoginAnswer(LocalVerify(db, email, compare));
      r.Unauthorized? ==> r.message == InvalidCredentials || r.message == UseSocialLogin
    ensures LoginHttpStatus(Unauthorized(InvalidCredentials)) == 401
  {
  }

  // ---------------------------------------------------- OAuth redirect

  const MobileSuccessUrl := "recipebook://auth/success?token="
  const DefaultFrontendUrl := "http://localhost:3000"
  const WebSuccessPath := "/auth/success?token="

  /** Where `googleCallback` and `facebookCallback` send the browser (both
      are written identically): the app's deep link for platform `mobile`,
      the front end's success page for anything else, `web` being the
      default; `FRONTEND_URL` falls back to localhost when unset or empty. */
  function CallbackRedirect(platform: Option<string>, frontendUrl: Option<string>, token: string): (url: string)
    ensures Truthy(platform) && platform.value == "mobile" ==> url == MobileSuccessUrl + token
    ensures !(Truthy(platform) && platform.value == "mobile") ==>
      url == (if Truthy(frontendUrl) then frontendUrl.value else DefaultFrontendUrl) + WebSuccessPath + token
  {
    var p := if Truthy(platform) then platform.value else "web";
    if p == "mobile" then MobileSuccessUrl + token
    else
      var base := if Truthy(frontendUrl) then frontendUrl.value else DefaultFrontendUrl;
      base + WebSuccessPath + token
  }

  /** The callback for the account passport attached: a token for that
      account, carried at the end of the redirect. */
  function OAuthCallback(id: UserId, user: User, platform: Option<string>, frontendUrl: Option<string>,
                         sign: TokenClaims -> string): (url: string)
  {
    CallbackRedirect(platform, frontendUrl, sign(TokenClaims(id, user.role)))
  }

  /** The token is always the tail of the redirect, after the success
      query key, so the page it lands on can read it back; only the prefix
      depends on the platform. */
  lemma RedirectCarriesToken(id: UserId, user: User, platform: Option<string>, frontendUrl: Option<string>,
                             sign: TokenClaims -> string)
    ensures var url := OAuthCallback(id, user, platform, frontendUrl, sign);
      var token := sign(TokenClaims(id, user.role));
      && |token| <= |url|
      && url[|url| - |token|..] == token
      && url[..|url| - |token|] in {MobileSuccessUrl, (if Truthy(frontendUrl) then frontendUrl.value else DefaultFrontendUrl) + WebSuccessPath}
  {
    var url := OAuthCallback(id, user, platform, frontendUrl, sign);
    var token := sign(TokenClaims(id, user.role));
    var prefix := if Truthy(platform) && platform.value == "mobile" then MobileSuccessUrl
                  else (if Truthy(frontendUrl) then frontendUrl.value else DefaultFrontendUrl) + WebSuccessPath;
    assert url == prefix + token;
    assert url[..|url| - |token|] == prefix;
  }

  /** Any platform other than `mobile`, including none, gets the web
      redirect, and the front-end URL only matters for those. */
  lemma RedirectDefaultsToWeb(token: string, frontendUrl: Option<string>, other: Option<string>)
    ensures CallbackRedirect(None, None, token) == "http://localhost:3000/auth/success?token=" + token
    ensures CallbackRedirect(Some("web"), frontendUrl, token) == CallbackRedirect(None, frontendUrl, token)
    ensures CallbackRedirect(Some("mobile"), frontendUrl, token) == CallbackRedirect(Some("mobile"), other, token)
  {
  }
}
