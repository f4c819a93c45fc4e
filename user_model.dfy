/** User accounts (backend/src/models/User.js): enums and defaults of the
    schema, the optional fields, and the `permissions` virtual. */
module UserModel {
  import opened Common
  import opened TransactionModel

  datatype AuthProvider = Local | Google | Facebook | Apple

  function AuthProviderName(p: AuthProvider): string {
    match p
    case Local => "local"
    case Google => "google"
    case Facebook => "facebook"
    case Apple => "apple"
  }

  /** The `enum` validator of `authProvider`. */
  function ParseAuthProvider(s: string): (r: Option<AuthProvider>)
    ensures r.Some? ==> AuthProviderName(r.value) == s
    ensures r.None? ==> forall p :: AuthProviderName(p) != s
  {
    if s == "local" then Some(Local)
    else if s == "google" then Some(Google)
    else if s == "facebook" then Some(Facebook)
    else if s == "apple" then Some(Apple)
    else None
  }

  /** Roles `user` and `admin`. */
  datatype Role = Member | Admin

  function RoleName(r: Role): string {
    match r
    case Member => "user"
    case Admin => "admin"
  }

  function ParseRole(s: string): (r: Option<Role>)
    ensures r.Some? ==> RoleName(r.value) == s
    ensures r.None? ==> forall x :: RoleName(x) != s
  {
    if s == "user" then Some(Member)
    else if s == "admin" then Some(Admin)
    else None
  }

  datatype SubscriptionStatus = Free | Premium

  function StatusName(s: SubscriptionStatus): string {
    match s
    case Free => "free"
    case Premium => "premium"
  }

  function ParseStatus(s: string): (r: Option<SubscriptionStatus>)
    ensures r.Some? ==> StatusName(r.value) == s
    ensures r.None? ==> forall x :: StatusName(x) != s
  {
    if s == "free" then Some(Free)
    else if s == "premium" then Some(Premium)
    else None
  }

  /** A stored account. `password` is the stored credential (absent on
      social-only accounts), `providerId` links the account to a social
      identity, `subscriptionExpiry` and `createdAt` are milliseconds since
      the epoch, and `lastPaymentMethod` is what the payment handlers write. */
  datatype User = User(
    email: string,
    password: Option<string>,
    authProvider: AuthProvider,
    providerId: Option<string>,
    role: Role,
    subscriptionStatus: SubscriptionStatus,
    subscriptionExpiry: Option<int>,
    lastPaymentMethod: Option<Platform>,
    createdAt: int)

  /** The fields handed to `User.create`, before validation and defaults. */
  datatype UserDoc = UserDoc(
    email: Option<string>,
    password: Option<string>,
    authProvider: Option<string>,
    providerId: Option<string>,
    role: Option<string>,
    subscriptionStatus: Option<string>)

  /** Schema validation and defaults: `email` is required, the three enums
      accept only their members and default to local, user and free; the
      optional fields stay as given, and there is no expiry yet. */
  function CreateUser(doc: UserDoc, now: int): (r: Result<User, SchemaError>)
    ensures r.Success? <==>
      && Truthy(doc.email)
      && (doc.authProvider.None? || ParseAuthProvider(doc.authProvider.value).Some?)
      && (doc.role.None? || ParseRole(doc.role.value).Some?)
      && (doc.subscriptionStatus.None? || ParseStatus(doc.subscriptionStatus.value).Some?)
    ensures r.Success? ==>
      && r.value.email == doc.email.value
      && r.value.password == doc.password
      && r.value.providerId == doc.providerId
      && AuthProviderName(r.value.authProvider) == doc.authProvider.GetOr("local")
      && RoleName(r.value.role) == doc.role.GetOr("user")
      && StatusName(r.value.subscriptionStatus) == doc.subscriptionStatus.GetOr("free")
      && r.value.subscriptionExpiry.None?
      && r.value.lastPaymentMethod.None?
      && r.value.createdAt == now
  {
    var provider := if doc.authProvider.None? then Some(Local) else ParseAuthProvider(doc.authProvider.value);
    var role := if doc.role.None? then Some(Member) else ParseRole(doc.role.value);
    var status := if doc.subscriptionStatus.None? then Some(Free) else ParseStatus(doc.subscriptionStatus.value);
    if !Truthy(doc.email) then Failure(MissingRequired("email"))
    else if provider.None? then Failure(NotInEnum("authProvider", doc.authProvider.value))
    else if role.None? then Failure(NotInEnum("role", doc.role.value))
    else if status.None? then Failure(NotInEnum("subscriptionStatus", doc.subscriptionStatus.value))
    else Success(User(doc.email.value, doc.password, provider.value, doc.providerId,
                      role.value, status.value, None, None, now))
  }

  datatype Permissions = Permissions(canModify: bool, canViewPremium: bool)

  /** The `permissions` virtual: only admins may modify content; admins and
      premium subscribers may view premium content, whatever the expiry. */
  function PermissionsOf(u: User): (p: Permissions)
    ensures p.canModify <==> u.role == Admin
    ensures p.canViewPremium <==> u.role == Admin || u.subscriptionStatus == Premium
    ensures p.canModify ==> p.canViewPremium
  {
    Permissions(u.role == Admin, u.role == Admin || u.subscriptionStatus == Premium)
  }
}
