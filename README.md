# Recipe book backend: entitlements, access gates and identity linking

This project models the core of the recipe-book backend in Dafny. The backend is an Express and Mongoose service. Recipes are free or premium, and premium access is bought in one of three ways:

- an Apple in-app purchase;
- a Google Play in-app purchase;
- a Stripe checkout.

The model covers:

- **Payment reconciliation** (`paymentController.js`):
  - the Apple and Google receipt decision chains;
  - `validateIAP`, which runs the input checks, the idempotency lookup by the client's `(userId, transactionId)`, the platform dispatch, and an all-or-nothing commit (user update plus one ledger row);
  - the Stripe webhook, which runs the signature gate, idempotency by event id, the event-type dispatch, user resolution by `client_reference_id` or email, and an all-or-nothing commit (user update plus the event record).
- **Access gates** (`authMiddleware.js`):
  - bearer-token extraction in `protect`, with JavaScript's `split(' ')` modelled exactly;
  - the `admin` gate;
  - the `checkLicense` paywall, which demotes an expired subscription to `free` as it denies it.
- **Content shaping** (`recipeController.js`): the teaser projection of premium recipes for callers without premium access, and the 404/403 decision for a single recipe.
- **Identity reconciliation** (`passport.js`): the local-login decision chain and the Google/Facebook merge-or-create callbacks. The merge policy is the lenient one the code implements.
- **Registration and redirects** (`authController.js`): `register` validation with its duplicate check, the `login` answer mapping, and the platform-dependent OAuth redirect.
- **Schemas** (`User.js`, `Transaction.js`, `StripeEvent.js`, `Recipe.js`): enums, defaults and required fields, the unique indexes that back idempotency, the `permissions` virtual, the 90-day TTL of processed events, and title trimming.

The store is a value `Store.Db`:

- users keyed by id, with a unique email index;
- the ledger keyed by `transactionId`;
- the processed Stripe events keyed by `eventId`.

`Store.Database` is the mutable handle the handlers write through. Each state-changing handler has two parts:

- a spec function on `Db`, such as `PaymentController.ValidateIAPSpec`;
- a method on `Database`, proved to produce that function's response and new store.

The properties are lemmas about the spec functions. A multi-document transaction is a snapshot: the method restores it when the second write fails.

Everything the code obtains from outside arrives as a parameter or an input record:

- the clock, as `now` integer milliseconds;
- what Apple, Google and Stripe answer;
- whether Stripe's signature check passed;
- what bcrypt compares and hashes;
- what `jwt.verify` decodes and `jwt.sign` produces;
- the environment's `FRONTEND_URL`.

Three policies of the code that shape the model:

- **OAuth merge.** The callbacks find the account by email only. They link any account that lacks `providerId`, whatever its `authProvider`, and return an already-linked account unchanged.
- **Expiry.** The paywall's expiry test is strict (`expiry < now`): an expiry equal to `now` still passes.
- **Ledger key.** The ledger's uniqueness is on `transactionId` alone, across users and platforms. Stripe events live in their own collection, keyed by `eventId`.

One divergence inside the code itself: `paymentController.js:1` binds `User` to the Transaction model, so both "user" updates address the ledger collection. The model uses the evident intent, an update of the account. The behaviour as written is modelled separately, in `ValidateIAPAsWritten` and `HandleStripeWebhookAsWritten`. See "Findings".

## Model

| member | source | states |
|---|---|---|
| UserModel.ParseAuthProvider | backend/src/models/User.js:23-27 | the `authProvider` enum accepts exactly local, google, facebook and apple: a parsed name maps back to itself, and a name that is no member's is refused |
| UserModel.ParseRole | backend/src/models/User.js:33-37 | the role enum accepts exactly `user` and `admin` |
| UserModel.ParseStatus | backend/src/models/User.js:38-42 | the subscription enum accepts exactly `free` and `premium` |
| UserModel.CreateUser | backend/src/models/User.js:9-53 | an account document is accepted iff it has a non-empty email and every enum value given is a member; the defaults are local, user and free; the optional fields are kept; there is no expiry; creation time is `now` |
| UserModel.PermissionsOf | backend/src/models/User.js:59-64 | `canModify` iff the role is admin; `canViewPremium` iff admin or premium, whatever the expiry; `canModify` implies `canViewPremium` |
| Common.DateFromMs | backend/src/controllers/paymentController.js:40 | `new Date(parseInt(x))` is a valid date exactly when `x` is present and numeric, and then with that time value |
| TransactionModel.ParsePlatform | backend/src/models/Transaction.js:20-24 | the platform enum accepts exactly ios, android and stripe |
| TransactionModel.ParseTxStatus | backend/src/models/Transaction.js:30-34 | the status enum accepts exactly pending, completed and refunded |
| TransactionModel.CreateTransaction | backend/src/models/Transaction.js:7-40 | a ledger document is accepted iff `userId` is present, `transactionId` is non-empty, the platform is a member, any status is a member, and `purchaseDate` is not an Invalid Date (the `Date` cast refuses it); the fields are kept, status defaults to pending, and `createdAt` is `now` |
| TransactionModel.FindUserTransaction | backend/src/controllers/paymentController.js:121-124 | finds a row iff some row has both the user and the (present) transaction id |
| TransactionModel.InsertRow | backend/src/models/Transaction.js:14-19 | the unique index on `transactionId`: refused iff the id is already stored, whoever owns that row; otherwise exactly that row is added, and rows stay stored under their own id |
| StripeEventModel.CreateStripeEvent | backend/src/models/StripeEvent.js:7-23 | an event record is accepted iff `eventId` is non-empty; type, user, email and session are optional and kept; `processedAt` defaults to `now` |
| StripeEventModel.InsertEvent | backend/src/models/StripeEvent.js:8-13 | the unique index on `eventId`: refused iff present, otherwise exactly that record is added |
| StripeEventModel.Sweep | backend/src/models/StripeEvent.js:26 | a TTL pass removes exactly the records older than 7776000 s (90 days); every record processed within the window stays; nothing is altered |
| RecipeModel.SkipWhitespace | backend/src/models/Recipe.js:8-12 | the first non-whitespace index at or after a position: everything skipped is whitespace and the character found is not |
| RecipeModel.BackOverWhitespace | backend/src/models/Recipe.js:8-12 | the end of a span once trailing whitespace is dropped: everything dropped is whitespace and the last character kept is not |
| RecipeModel.TrimBounds | backend/src/models/Recipe.js:8-12 | the span `trim` keeps: only whitespace lies outside it, its ends are not whitespace, and it is empty exactly when the whole title is whitespace |
| RecipeModel.Trim | backend/src/models/Recipe.js:8-12 | the stored title is the given one without leading and trailing ECMAScript whitespace; it is empty exactly when the title is blank, and otherwise has no whitespace at either end |
| RecipeModel.CreateRecipe | backend/src/models/Recipe.js:7-38 | a recipe is accepted iff the trimmed title is non-empty, every ingredient is a non-empty string, instructions are non-empty, and the author is present; `isPremium` defaults to false |
| Store.FindByEmail | backend/src/models/User.js:10-18 | under the store invariant, finds an account iff one has that email, and only such an account |
| Store.SetUser | backend/src/config/passport.js:70 | saving a changed account replaces only that account and keeps the store invariant |
| Store.AddUser | backend/src/models/User.js:13 | an insert takes a fresh id, indexes the new email, and keeps the store invariant |
| Store.AddTransaction | backend/src/models/Transaction.js:14-19 | a ledger insert fails iff the id is stored; otherwise it adds exactly one row and changes nothing else |
| Store.AddEvent | backend/src/models/StripeEvent.js:8-13 | an event insert fails iff the id is stored; otherwise it adds exactly one record and changes nothing else |
| Store.Database.Restore | backend/src/controllers/paymentController.js:157 | aborting a multi-document transaction puts back the store as it was at the snapshot |
| Store.Database.ExpireEvents | backend/src/models/StripeEvent.js:26 | one TTL pass over the event collection, the rest of the store unchanged |
| PaymentController.ValidateAppleReceipt | backend/src/controllers/paymentController.js:11-48 | valid iff the list is non-empty, `products[0]` is `premium_subscription_monthly`, and it has no cancellation date; a thrown error is invalid; on success the ids come from `products[0]`, the purchase date is `new Date(parseInt(purchaseDateMs))`, an Invalid Date exactly when that field is missing, and the expiry is absent exactly when `expiresDateMs` is |
| PaymentController.AppleExaminesOnlyFirstPurchase | backend/src/controllers/paymentController.js:22-30 | two product lists with the same first entry validate alike |
| PaymentController.ValidateGoogleReceipt | backend/src/controllers/paymentController.js:54-101 | valid iff setup and parse succeed, a purchase token is present, Google answers, the purchase state is 0, and the consumption state is not 1; a missing token is refused before Google is asked; on success the transaction id is `orderId`, the product is the client's, and the purchase date is an Invalid Date exactly when `purchaseTimeMillis` is missing |
| PaymentController.GoogleCaught | backend/src/controllers/paymentController.js:94-100 | a thrown 404 means not found on Google Play; any other error keeps its message |
| PaymentController.GrantPremium | backend/src/controllers/paymentController.js:159-167 | the account becomes premium until `now + 2592000000` with the payment method recorded; no other field changes |
| PaymentController.GrantIfFound | backend/src/controllers/paymentController.js:244-252 | an update by query: the matching account, if any, becomes `GrantPremium` of its old record; every other account, the email index, the id counter, the ledger and the events are unchanged, and the store invariant is kept |
| PaymentController.ValidateIAP | backend/src/controllers/paymentController.js:108-193 | the handler's response and new store are those of `ValidateIAPSpec`, and the store invariant is kept |
| PaymentController.IAPRejectsMissingInput | backend/src/controllers/paymentController.js:114-118 | a missing receipt, platform or product id is a 400, with the store untouched |
| PaymentController.IAPAlreadyProcessed | backend/src/controllers/paymentController.js:121-133 | a row for the caller and the client's transaction id gives 200 `alreadyProcessed`, with no write, before the platform is examined |
| PaymentController.IAPRejectsUnknownPlatform | backend/src/controllers/paymentController.js:138-144 | a platform other than ios or android is a 400, with no write |
| PaymentController.IAPRejectsInvalidReceipt | backend/src/controllers/paymentController.js:147-153 | an invalid validator verdict is a 400 `InvalidReceipt`, with no write |
| PaymentController.IAPWritesOnlyOnActivation | backend/src/controllers/paymentController.js:108-193 | every response other than activation leaves the store unchanged |
| PaymentController.IAPCommitFacts | backend/src/controllers/paymentController.js:111-153 | a request reaches the commit only with a caller, the platform `ios` or `android` as sent, and a valid verdict from that platform's validator |
| PaymentController.IAPActivation | backend/src/controllers/paymentController.js:169-187 | activation answers `expiresAt = now + 30 days`; the validator's transaction id is non-empty and unused and its purchase date is valid; the new ledger is the old one plus exactly one completed row under that id, with the caller, platform, product, purchase date, receipt and `now`; the invariant holds |
| PaymentController.IAPActivationGrantsCaller | backend/src/controllers/paymentController.js:156-167 | in the same commit the caller's record (when the account exists) becomes `GrantPremium` of the old one for the platform sent, and no other account, event or index changes |
| PaymentController.IAPCommitAllOrNothing | backend/src/controllers/paymentController.js:156-179 | once the checks pass, activation happens iff the validator's transaction id is non-empty and unused by any user and its purchase date is a valid date; otherwise the answer is a 500 and neither write is kept |
| PaymentController.IAPUndatedPurchaseFails | backend/src/controllers/paymentController.js:40-91 | an Apple or Google purchase reported without a purchase time is answered 500 and leaves the free account as it was, because the ledger refuses the Invalid Date and the session rolls back |
| PaymentController.IAPNoDoubleGrant | backend/src/models/Transaction.js:14-19 | after an activation, repeating the same request at any later time writes nothing, because the lookup or the unique index stops it |
| PaymentController.WebhookHttpStatus | backend/src/controllers/paymentController.js:215-273 | only a rejected signature is a 400; every other delivery is acknowledged with a 200 |
| PaymentController.CheckoutTarget | backend/src/controllers/paymentController.js:242 | the account is resolved by `client_reference_id` when one is present, otherwise by the customer's email |
| PaymentController.HandleStripeWebhook | backend/src/controllers/paymentController.js:200-274 | the handler's response and new store are those of `HandleStripeWebhookSpec`, and the invariant is kept |
| PaymentController.WebhookRejectsBadSignature | backend/src/controllers/paymentController.js:205-218 | a bad signature is a 400 whatever the store holds, with no write |
| PaymentController.WebhookIgnoresRecordedEvent | backend/src/controllers/paymentController.js:220-225 | a recorded event id is answered `processed: false`, with no write |
| PaymentController.WebhookAcknowledgesOtherTypes | backend/src/controllers/paymentController.js:229-268 | an event type other than `checkout.session.completed` is answered `processed: true`, with no write and no record |
| PaymentController.WebhookNeedsAnIdentifier | backend/src/controllers/paymentController.js:235-237 | a checkout with neither reference nor email is acknowledged with an error, with no write |
| PaymentController.WebhookGrantsCheckout | backend/src/controllers/paymentController.js:239-268 | a new identifiable checkout records the event (processed at `now`) and grants premium via stripe to the referenced account, or else to the account with that email; no other account and no ledger row changes |
| PaymentController.WebhookRedeliveryIsNoop | backend/src/controllers/paymentController.js:220-225 | redelivering an event at any later time writes nothing more |
| PaymentController.WebhookWritesOnlyOnCheckout | backend/src/controllers/paymentController.js:220-268 | only a new completed checkout that is processed changes the store |
| PaymentController.IAPAsWrittenKeepsAccounts | backend/src/controllers/paymentController.js:159-167 | as written, validation answers as intended but never changes an account |
| PaymentController.WebhookAsWrittenKeepsAccounts | backend/src/controllers/paymentController.js:244-252 | as written, the webhook answers as intended but never changes an account |
| PaymentController.IAPAsWrittenCounterexample | backend/src/controllers/paymentController.js:1 | a concrete paid iOS purchase that, as written, is activated and recorded while the payer stays free; the intended handler makes them premium |
| PaymentController.WebhookAsWrittenCounterexample | backend/src/controllers/paymentController.js:244-252 | a concrete completed checkout that, as written, is recorded while the payer stays free |
| AuthMiddleware.Split | backend/src/middleware/authMiddleware.js:15 | `split(' ')` gives at least one piece; no piece contains the separator; there is one piece iff the separator is absent |
| AuthMiddleware.JoinOfSplit | backend/src/middleware/authMiddleware.js:15 | joining the pieces of a split gives the string back |
| AuthMiddleware.SplitOfJoin | backend/src/middleware/authMiddleware.js:15 | splitting a join of separator-free pieces gives the pieces back |
| AuthMiddleware.SplitAtFirst | backend/src/middleware/authMiddleware.js:15 | splitting at the first separator gives the piece before it followed by the pieces of the rest |
| AuthMiddleware.SplitWithoutSeparator | backend/src/middleware/authMiddleware.js:15 | a string without the separator splits into itself alone |
| AuthMiddleware.BearerToken | backend/src/middleware/authMiddleware.js:10-15 | a token is taken only from a header starting with `Bearer`; it is the non-empty, space-free word between the first and second spaces |
| AuthMiddleware.Protect | backend/src/middleware/authMiddleware.js:7-29 | the answer is 'no token' iff the header is not a bearer header; the request proceeds iff a token was extracted and verified, and then with the id the token decodes to when an account has it, and with no account otherwise |
| AuthMiddleware.BearerHeaderYieldsToken | backend/src/middleware/authMiddleware.js:10-16 | `Bearer <t>`, followed by nothing or by a space and anything else, yields exactly `t`, for any non-empty `t` without spaces |
| AuthMiddleware.ProtectWithoutBearer | backend/src/middleware/authMiddleware.js:26-28 | a missing header, or one not starting with `Bearer`, is a 401 'no hay token' |
| AuthMiddleware.ProtectBareBearer | backend/src/middleware/authMiddleware.js:14-23 | a bare `Bearer` header fails as a failed token |
| AuthMiddleware.ProtectDoubleSpace | backend/src/middleware/authMiddleware.js:14-23 | `Bearer` followed by two spaces leaves an empty token, which fails |
| AuthMiddleware.ProtectAttachesDecodedAccount | backend/src/middleware/authMiddleware.js:14-19 | for a verified token, `req.user` is the stored record of the id the token decodes to, and none when no account has that id |
| AuthMiddleware.AdminGateIsCanModify | backend/src/middleware/authMiddleware.js:34-40 | the admin gate passes iff an account is present and its permissions allow modifying; without an account it refuses |
| AuthMiddleware.CheckLicense | backend/src/middleware/authMiddleware.js:47-92 | the gate's decision and new store are those of `CheckLicenseSpec`, and the invariant is kept |
| AuthMiddleware.CheckLicenseAdminBypass | backend/src/middleware/authMiddleware.js:50-52 | admins pass, with no write, whatever their subscription fields |
| AuthMiddleware.CheckLicenseRequiresPremium | backend/src/middleware/authMiddleware.js:55-60 | no account, or a non-admin without premium status, is a 403 `upgrade`, with no write |
| AuthMiddleware.CheckLicenseExpiry | backend/src/middleware/authMiddleware.js:62-87 | for a premium non-admin: no expiry passes; expiry `< now` (and only then) is denied as expired with that date, and exactly that account is demoted to free; expiry `>= now` passes with no write |
| AuthMiddleware.CheckLicenseNeverPromotes | backend/src/middleware/authMiddleware.js:73-77 | the only possible write turns a premium account into a free one; every other field and collection is unchanged and the invariant holds |
| AuthMiddleware.CheckLicenseGrantImpliesPermission | backend/src/middleware/authMiddleware.js:47-87 | whoever passes has an account whose permissions allow viewing premium content |
| AuthMiddleware.CheckLicenseDemotionSticks | backend/src/middleware/authMiddleware.js:73-84 | after a demotion, the next check at any time asks for an upgrade and writes nothing |
| RecipeController.IsPremiumCaller | backend/src/controllers/recipeController.js:11-12 | the caller counts as premium iff its permissions allow viewing premium content, that is, premium status or the admin role; the expiry is not consulted |
| RecipeController.FirstImage | backend/src/controllers/recipeController.js:27 | the image is the first entry when there is one and it is non-empty, otherwise null |
| RecipeController.ShapeRecipe | backend/src/controllers/recipeController.js:18-45 | a withheld recipe keeps id, title and image, shows the first `min(2, n)` ingredients, has null instructions and the teaser text; any other recipe is passed in full; the ingredients shown are always a prefix of the stored ones |
| RecipeController.GetRecipes | backend/src/controllers/recipeController.js:8-52 | without an account the answer is a 500; otherwise one entry per stored recipe |
| RecipeController.GetRecipesKeepsOrder | backend/src/controllers/recipeController.js:18 | entry `i` is recipe `i`, with its first image or none |
| RecipeController.GetRecipesWithholdsPremium | backend/src/controllers/recipeController.js:22-33 | a caller without premium access never gets a premium recipe's instructions, and sees at most its first two ingredients and the teaser; free recipes are passed in full |
| RecipeController.GetRecipesFullForPremium | backend/src/controllers/recipeController.js:36-44 | a premium or admin caller gets every recipe in full, with no teaser |
| RecipeController.GetRecipeById | backend/src/controllers/recipeController.js:59-83 | the answer is 500 iff there is no account (before the lookup) or the id is malformed (the lookup throws a CastError); it is 404 iff there is an account and no recipe has the id; a found recipe is returned whole |
| RecipeController.ItemAgreesWithList | backend/src/controllers/recipeController.js:71-78 | a recipe is refused with 403 exactly when the list shows it as a teaser, and returned exactly when the list shows its instructions |
| RecipeController.GetRecipeByIdForbidden | backend/src/controllers/recipeController.js:61-76 | the 403 happens iff the recipe is premium and the caller may not view premium content |
| Passport.LocalVerify | backend/src/config/passport.js:29-53 | a successful login names the stored account with that email |
| Passport.LocalUnknownLikeWrongPassword | backend/src/config/passport.js:34-47 | an unknown email and a wrong password give the same answer, 'Credenciales inválidas' |
| Passport.LocalSocialOnlyAccount | backend/src/config/passport.js:39-41 | an account without a stored password gets the social-login message, whatever the comparison would answer |
| Passport.LocalAuthenticatesOnlyOnMatch | backend/src/config/passport.js:32-49 | login succeeds iff some account has that email, a stored password, and a comparison that accepts |
| Passport.ProfileEmail | backend/src/config/passport.js:99-103 | Facebook goes on iff it sent a non-empty email; Google goes on iff the profile has an email |
| Passport.SocialLogin | backend/src/config/passport.js:60-128 | the callback's result and new store are those of `SocialLoginSpec`, and the invariant is kept |
| Passport.SocialNeedsEmail | backend/src/config/passport.js:99-103 | without a usable email the callback fails with no write, whatever the store holds |
| Passport.SocialLinksUnlinkedAccount | backend/src/config/passport.js:63-72 | an existing account without `providerId` gets this provider and the profile id; its role, subscription and every other field are kept; no other account changes |
| Passport.SocialKeepsLinkedAccount | backend/src/config/passport.js:105-113 | an account that already has a `providerId` is returned unchanged, with no write, even when it is linked elsewhere |
| Passport.SocialCreatesAccount | backend/src/config/passport.js:76-84 | an unknown email creates exactly one account under a fresh id, with this provider and profile id, role user, status free, no password and no expiry |
| Passport.SocialLoginRepeatable | backend/src/config/passport.js:116-124 | signing in again with the same profile finds the same account and writes nothing more |
| AuthController.Register | backend/src/controllers/authController.js:28-73 | the handler's response and new store are those of `RegisterSpec`, and the invariant is kept |
| AuthController.RegisterRejectsBadEmail | backend/src/controllers/authController.js:33-35 | a missing, empty or non-string email is a 400, with no write |
| AuthController.RegisterRejectsShortPassword | backend/src/controllers/authController.js:37-41 | a missing, non-string or shorter-than-8 password is a 400, with no write |
| AuthController.RegisterRejectsDuplicate | backend/src/controllers/authController.js:44-47 | a registered email is a 400 'El usuario ya existe', and no account is created |
| AuthController.RegisterCreatesLocalAccount | backend/src/controllers/authController.js:50-68 | a new email creates exactly one local account (role user, status free, the hashed password) under a fresh id; the 201's token and summary name it |
| AuthController.LoginAnswer | backend/src/controllers/authController.js:80-102 | an error is a 500; no user is a 401 carrying the strategy's message; an account is a 200 with its token claims and summary |
| AuthController.RegisterThenLogin | backend/src/controllers/authController.js:89-100 | logging in after registering, with a password the hash accepts, returns the account and summary `register` returned |
| AuthController.LoginRejections | backend/src/controllers/authController.js:85-87 | a 401 carries one of the two strategy messages |
| AuthController.CallbackRedirect | backend/src/controllers/authController.js:113-123 | platform `mobile` gives `recipebook://auth/success?token=T`; anything else gives `(FRONTEND_URL or http://localhost:3000)/auth/success?token=T` |
| AuthController.RedirectCarriesToken | backend/src/controllers/authController.js:109-126 | the signed token for the attached account is the tail of the redirect, after one of the two success prefixes |
| AuthController.RedirectDefaultsToWeb | backend/src/controllers/authController.js:136-146 | no platform means web, the default front end is localhost:3000, and the mobile link ignores `FRONTEND_URL` |

`googleCallback` (authController.js:109-126) and `facebookCallback` (authController.js:133-147) are written identically. Both are `AuthController.OAuthCallback`.

## Left out

- Provider calls are inputs, not calls: Apple's `verifyReceipt`, Google's client setup and `purchases.products.get`, and Stripe's `constructEvent` signature crypto. A thrown error or JSON parse failure is an input case.
- Crypto is represented only by its results: bcrypt hashing and comparison, and JWT signing and verification. The bcrypt results are the `hashed` and `compare` parameters; JWT is `sign` and `verify`. Token expiry (`7d`) and the `iat` claim are not modelled.
- Concurrency and store failures are not modelled: concurrent duplicate requests, Mongo session retries, and the 500 answers of the `catch` blocks when the database itself fails. The handlers run one at a time against a store that does not fail. The 500s that the input causes are modelled: a malformed recipe id (`GetRecipeById`), a schema refusal inside the purchase transaction (`CommitPurchase`; the webhook's `CommitCheckout` acknowledges the same case with its error answer), and a missing account behind a token (`GetRecipes`, `ValidateIAP`).
- Logging is not modelled, nor the development-only `details` field of the invalid-receipt answer.
- `UserModel.CreateUser`: the email format validator (User.js:15) is not modelled. An email that fails it makes `User.create` throw and the caller answers 500; the model accepts any non-empty email.
- `PaymentController.ValidateAppleReceipt`: a millisecond string arrives as the number `parseInt` reads from it, or as absent when `parseInt` gives `NaN`; an absent purchase time becomes the Invalid Date. How `parseInt` reads a string is not modelled. The same holds for `purchaseTimeMillis` in `ValidateGoogleReceipt`.
- `PaymentController.ValidateIAP`: `expiresAt` in the response is computed from a second reading of the clock. The model uses the same `now` as the stored expiry.
- `PaymentController.GrantPremium`: `lastPaymentMethod` is not a path of the User schema, and Mongoose's strict mode would drop it. The model writes it, as both handlers intend.
- `TransactionModel.FindUserTransaction`: a request without `transactionId` is modelled as matching no row. The driver sends the absent value as null, and every stored row has an id.
- `AuthMiddleware.Protect`: with a bare `Bearer` header, the code answers 401 'token fallido' and then tries to answer again. The model keeps the first answer. Selecting the account without its password is not modelled.
- `Passport.LocalVerify`: passport-local rejects a body without email or password before this callback runs. The model has no such case.
- `Passport.ProfileEmail`: a Google profile whose first email has no value is treated like one without emails.
- `Passport.SocialLogin`: the pre-save hook (User.js:69-75) calls `next()` without returning, then hashes the password again. Its effect on `user.save()` depends on bcrypt and is not modelled: a linked account is saved as given.
- `AuthController.RegisterSpec`: the password length is counted in Unicode scalar values. JavaScript's `length` counts UTF-16 code units, so a password with characters outside the Basic Multilingual Plane needs more characters here.
- `StripeEventModel.Sweep`: the TTL monitor runs periodically. When a pass occurs is not modelled; `Sweep` is one pass at a given `now`.
- `getMe`, `serializeUser` and `deserializeUser` are outside this model. So are the routes, the app and server setup, the database connection, and the front end.

## Findings

| source | as written | input that shows it | evidently intended | confidence | as-written member | corrected member |
|---|---|---|---|---|---|---|
| backend/src/controllers/paymentController.js:1 | `User` is bound to the Transaction model, so `User.findByIdAndUpdate` at :159 updates the ledger collection, where nothing matches and the fields are not schema paths | a free user with id 0 posts a valid iOS receipt for `premium_subscription_monthly` (transaction `t-1`): the answer is "subscription activated" and the ledger row is written, but the account stays free | the account becomes premium until `now + 30 days`, with payment method ios | high (not executed) | PaymentController.IAPAsWrittenCounterexample | PaymentController.IAPActivationGrantsCaller |
| backend/src/controllers/paymentController.js:244 | `User.findOneAndUpdate` in the webhook goes to the ledger collection too, so a paid checkout never upgrades the customer | a new `checkout.session.completed` event `evt_1` with no reference and the email of a free account: it is recorded as processed, but the account stays free | the account with that email becomes premium via stripe | high (not executed) | PaymentController.WebhookAsWrittenCounterexample | PaymentController.WebhookGrantsCheckout |
