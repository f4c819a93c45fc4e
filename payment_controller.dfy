/** Payment reconciliation (backend/src/controllers/paymentController.js):
    the Apple and Google receipt validators, in-app purchase validation
    (`validateIAP`) and the Stripe webhook (`handleStripeWebhook`).

    What the issuers answer (Apple's `verifyReceipt`, Google's
    `purchases.products.get`) and whether Stripe's signature check accepted
    the raw body are inputs; the clock is the `now` parameter.

    Divergence noted in the source: line 1 binds `User` to the Transaction
    model, so the user updates (`User.findByIdAndUpdate` at line 159,
    `User.findOneAndUpdate` at line 244) address the ledger collection and
    never touch an account. `ValidateIAPSpec` and `HandleStripeWebhookSpec`
    model the evident intent, an update of the user record; the behaviour as
    written is `ValidateIAPAsWritten` and `HandleStripeWebhookAsWritten`. */
module PaymentController {
  import opened Common
  import opened UserModel
  import opened TransactionModel
  import opened StripeEventModel
  import opened Store

  /** The only product Apple receipts are accepted for. */
  const PremiumProductId := "premium_subscription_monthly"

  /** The entitlement a payment grants: 30 days, in milliseconds. */
  const EntitlementPeriodMs: int := 30 * 24 * 60 * 60 * 1000

  /** An error thrown by an issuer call or a parse; `code` is the HTTP code
      the Google client attaches, when there is one. */
  datatype ProviderError = ProviderError(code: Option<int>, message: string)

  /** Why a receipt was rejected. The source reports these as messages
      ('No se encontraron productos válidos', 'Producto no coincide', ...). */
  datatype ValidationError =
    | NoProducts
    | ProductMismatch
    | Cancelled
    | MissingPurchaseToken
    | BadPurchaseState(state: Option<int>)
    | AlreadyConsumed
    | NotFoundOnGooglePlay
    | ProviderFailure(message: string)

  /** The normalised answer of a receipt validator. */
  datatype ValidationResult =
    | Invalid(error: ValidationError)
    | Valid(transactionId: Option<string>, productId: Option<string>,
            purchaseDate: JsDate, expiresDate: Option<int>,
            purchaseToken: Option<string>)

  // ---------------------------------------------------------------- Apple

  /** One purchase of Apple's answer. Absent (or falsy) fields are `None`;
      a millisecond field is the number it parses to, `None` when it is
      absent or does not parse. */
  datatype ApplePurchase = ApplePurchase(
    productId: Option<string>,
    transactionId: Option<string>,
    purchaseDateMs: Option<int>,
    expiresDateMs: Option<int>,
    cancellationDate: Option<int>)

  /** What `verifyReceipt` does: throw, or return a (possibly null) list. */
  datatype AppleAnswer =
    | AppleFailed(error: ProviderError)
    | AppleProducts(products: Option<seq<ApplePurchase>>)

  /** The decision chain of `validateAppleReceipt` after the issuer call:
      an empty or missing list is rejected; only the first purchase is
      examined; it must be the premium product and must carry no
      cancellation date; a thrown error becomes an invalid result. */
  function ValidateAppleReceipt(answer: AppleAnswer): (r: ValidationResult)
    ensures answer.AppleFailed? ==> r == Invalid(ProviderFailure(answer.error.message))
    ensures answer.AppleProducts? && (answer.products.None? || |answer.products.value| == 0) ==>
      r == Invalid(NoProducts)
    ensures answer.AppleProducts? && answer.products.Some? && |answer.products.value| > 0 ==>
      var p := answer.products.value[0];
      && (p.productId != Some(PremiumProductId) ==> r == Invalid(ProductMismatch))
      && (p.productId == Some(PremiumProductId) && p.cancellationDate.Some? ==> r == Invalid(Cancelled))
    ensures r.Valid? <==>
      && answer.AppleProducts? && answer.products.Some? && |answer.products.value| > 0
      && answer.products.value[0].productId == Some(PremiumProductId)
      && answer.products.value[0].cancellationDate.None?
    ensures r.Valid? ==>
      var p := answer.products.value[0];
      && r.transactionId == p.transactionId
      && r.productId == Some(PremiumProductId)
      && r.purchaseDate == DateFromMs(p.purchaseDateMs)
      && (r.purchaseDate == InvalidDate <==> p.purchaseDateMs.None?)
      && (r.expiresDate.None? <==> p.expiresDateMs.None?)
      && r.expiresDate == p.expiresDateMs
      && r.purchaseToken.None?
  {
    match answer
    case AppleFailed(e) => Invalid(ProviderFailure(e.message))
    case AppleProducts(products) =>
      if products.None? || |products.value| == 0 then Invalid(NoProducts)
      else
        var latest := products.value[0];
        if latest.productId != Some(PremiumProductId) then Invalid(ProductMismatch)
        else if latest.cancellationDate.Some? then Invalid(Cancelled)
        else Valid(latest.transactionId, latest.productId, DateFromMs(latest.purchaseDateMs),
                   latest.expiresDateMs, None)
  }

  /** Only `products[0]` is examined: answers that agree on it validate alike. */
  lemma AppleExaminesOnlyFirstPurchase(a: seq<ApplePurchase>, b: seq<ApplePurchase>)
    requires |a| > 0 && |b| > 0 && a[0] == b[0]
    ensures ValidateAppleReceipt(AppleProducts(Some(a))) == ValidateAppleReceipt(AppleProducts(Some(b)))
  {
  }

  // --------------------------------------------------------------- Google

  /** The fields of the parsed receipt that the validator reads. */
  datatype GoogleReceiptData = GoogleReceiptData(purchaseToken: Option<string>, orderId: Option<string>)

  /** The fields of Google's purchase record that the validator reads;
      `purchaseTimeMillis` is the number it parses to, `None` when it is
      absent or does not parse. */
  datatype GooglePurchase = GooglePurchase(
    purchaseState: Option<int>,
    consumptionState: Option<int>,
    purchaseTimeMillis: Option<int>)

  /** What the Google side answers for one validation, step by step: setting
      up the client (parsing the service-account key, `getClient`) fails or
      not; `JSON.parse(receipt)` yields the receipt data or throws; and
      `purchases.products.get` yields the purchase or throws. */
  datatype GoogleAnswers = GoogleAnswers(
    setup: Option<ProviderError>,
    receiptData: Result<GoogleReceiptData, ProviderError>,
    purchase: Result<GooglePurchase, ProviderError>)

  /** The catch block: a 404 from Google means the purchase is unknown. */
  function GoogleCaught(e: ProviderError): (v: ValidationError)
    ensures e.code == Some(404) ==> v == NotFoundOnGooglePlay
    ensures e.code != Some(404) ==> v == ProviderFailure(e.message)
  {
    if e.code == Some(404) then NotFoundOnGooglePlay else ProviderFailure(e.message)
  }

  /** The decision chain of `validateGoogleReceipt`: a missing purchase
      token is rejected before Google is asked; the purchase must be in
      state 0 (purchased) and not consumed (state 1); on success the
      transaction id is the receipt's order id and the product id is the
      one the client sent. */
  function ValidateGoogleReceipt(g: GoogleAnswers, productId: string): (r: ValidationResult)
    ensures g.setup.None? && g.receiptData.Success? && !Truthy(g.receiptData.value.purchaseToken) ==>
      r == Invalid(MissingPurchaseToken)
    ensures r.Valid? <==>
      && g.setup.None? && g.receiptData.Success? && Truthy(g.receiptData.value.purchaseToken)
      && g.purchase.Success? && g.purchase.value.purchaseState == Some(0)
      && g.purchase.value.consumptionState != Some(1)
    ensures r.Valid? ==>
      && r.transactionId == g.receiptData.value.orderId
      && r.productId == Some(productId)
      && r.purchaseDate == DateFromMs(g.purchase.value.purchaseTimeMillis)
      && (r.purchaseDate == InvalidDate <==> g.purchase.value.purchaseTimeMillis.None?)
      && r.purchaseToken == g.receiptData.value.purchaseToken
      && r.expiresDate.None?
    ensures r.Invalid? && r.error == MissingPurchaseToken ==> g.receiptData.Success?
  {
    if g.setup.Some? then Invalid(GoogleCaught(g.setup.value))
    else match g.receiptData
      case Failure(e) => Invalid(GoogleCaught(e))
      case Success(data) =>
        if !Truthy(data.purchaseToken) then Invalid(MissingPurchaseToken)
        else match g.purchase
          case Failure(e) => Invalid(GoogleCaught(e))
          case Success(p) =>
            if p.purchaseState != Some(0) then Invalid(BadPurchaseState(p.purchaseState))
            else if p.consumptionState == Some(1) then Invalid(AlreadyConsumed)
            else Valid(data.orderId, Some(productId), DateFromMs(p.purchaseTimeMillis), None, data.purchaseToken)
  }

  // ------------------------------------------------------ shared commit

  /** The entitlement written on payment: premium for 30 days from `now`,
      and the payment method; every other field of the account is kept. */
  function GrantPremium(u: User, via: Platform, now: int): (g: User)
    ensures g.subscriptionStatus == Premium
    ensures g.subscriptionExpiry == Some(now + EntitlementPeriodMs)
    ensures g.lastPaymentMethod == Some(via)
    ensures g.(subscriptionStatus := u.subscriptionStatus, subscriptionExpiry := u.subscriptionExpiry,
               lastPaymentMethod := u.lastPaymentMethod) == u
  {
    u.(subscriptionStatus := Premium, subscriptionExpiry := Some(now + EntitlementPeriodMs),
       lastPaymentMethod := Some(via))
  }

  /** An update by query: the matching account, if any, receives the
      premium grant; when no account matches, nothing is written and no
      error is raised. No other account, index, ledger row or event
      changes. */
  function GrantIfFound(db: Db, target: Option<UserId>, via: Platform, now: int): (r: Db)
    ensures r.ledger == db.ledger && r.events == db.events
    ensures r.byEmail == db.byEmail && r.nextId == db.nextId
    ensures r.users.Keys == db.users.Keys
    ensures forall id :: id in db.users && Some(id) != target ==> r.users[id] == db.users[id]
    ensures target.Some? && target.value in db.users ==>
      r.users[target.value] == GrantPremium(db.users[target.value], via, now)
    ensures DbValid(db) ==> DbValid(r)
  {
    if target.Some? && target.value in db.users
    then SetUser(db, target.value, GrantPremium(db.users[target.value], via, now))
    else db
  }

  // ---------------------------------------------------------- validateIAP

  /** The authenticated caller (`req.user.id`; no user when the token's
      account is gone) and the body fields, each possibly absent. */
  datatype IAPRequest = IAPRequest(
    caller: Option<UserId>,
    receipt: Option<string>,
    platform: Option<string>,
    productId: Option<string>,
    transactionId: Option<string>)

  /** What both issuers would answer for this request's receipt. */
  datatype IssuerAnswers = IssuerAnswers(apple: AppleAnswer, google: GoogleAnswers)

  datatype IAPResponse =
    | MissingParameters
    | AlreadyProcessed
    | UnsupportedPlatform
    | InvalidReceipt(error: ValidationError)
    | Activated(expiresAt: int)
    | PaymentError

  function IAPHttpStatus(r: IAPResponse): int {
    match r
    case MissingParameters => 400
    case AlreadyProcessed => 200
    case UnsupportedPlatform => 400
    case InvalidReceipt(_) => 400
    case Activated(_) => 200
    case PaymentError => 500
  }

  /** Where the checks before the commit leave a request: answered, or
      ready to commit a valid receipt for a user and platform. */
  datatype IAPStep =
    | IAPReply(response: IAPResponse)
    | IAPCommit(userId: UserId, platform: Platform, validation: ValidationResult)

  /** The checks of `validateIAP`, in order: the caller (reading
      `req.user.id` throws without one), the three required inputs, the
      idempotency lookup by the client's transaction id, then the platform
      dispatch and the validator's verdict. */
  function IAPDecision(db: Db, req: IAPRequest, issuer: IssuerAnswers): IAPStep {
    if req.caller.None? then IAPReply(PaymentError)
    else if !Truthy(req.receipt) || !Truthy(req.platform) || !Truthy(req.productId) then IAPReply(MissingParameters)
    else if FindUserTransaction(db.ledger, req.caller.value, req.transactionId).Some? then IAPReply(AlreadyProcessed)
    else
      var v :=
        if req.platform.value == "ios" then Some((Ios, ValidateAppleReceipt(issuer.apple)))
        else if req.platform.value == "android" then Some((Android, ValidateGoogleReceipt(issuer.google, req.productId.value)))
        else None;
      if v.None? then IAPReply(UnsupportedPlatform)
      else if v.value.1.Invalid? then IAPReply(InvalidReceipt(v.value.1.error))
      else IAPCommit(req.caller.value, v.value.0, v.value.1)
  }

  /** A request that reaches the commit has a caller, a supported platform
      and a valid verdict from that platform's validator. */
  lemma IAPCommitFacts(db: Db, req: IAPRequest, issuer: IssuerAnswers)
    requires IAPDecision(db, req, issuer).IAPCommit?
    ensures var step := IAPDecision(db, req, issuer);
      && req.caller == Some(step.userId)
      && req.platform == Some(PlatformName(step.platform))
      && step.validation.Valid?
  {
  }

  /** The ledger row `validateIAP` inserts: keyed by the VALIDATOR's
      transaction id (not the client's), status completed. */
  function PurchaseDoc(req: IAPRequest, userId: UserId, platform: Platform, v: ValidationResult): TransactionDoc
    requires v.Valid?
  {
    TransactionDoc(Some(userId), v.transactionId, Some(PlatformName(platform)), req.productId,
                   None, None, Some(v.purchaseDate), req.receipt, Some("completed"))
  }

  /** The multi-document transaction: the user write has been made in
      `written`; the ledger insert either succeeds, and both writes are
      kept, or fails (schema validation, duplicate id), and the store is
      as it was before the transaction. */
  function CommitPurchase(before: Db, written: Db, doc: TransactionDoc, now: int): Outcome<IAPResponse> {
    match CreateTransaction(doc, now)
    case Failure(_) => Outcome(PaymentError, before)
    case Success(row) =>
      match AddTransaction(written, row)
      case Failure(_) => Outcome(PaymentError, before)
      case Success(after) => Outcome(Activated(now + EntitlementPeriodMs), after)
  }

  /** `validateIAP` with the user update the code evidently intends. */
  function ValidateIAPSpec(db: Db, req: IAPRequest, issuer: IssuerAnswers, now: int): Outcome<IAPResponse> {
    match IAPDecision(db, req, issuer)
    case IAPReply(r) => Outcome(r, db)
    case IAPCommit(uid, platform, v) =>
      CommitPurchase(db, GrantIfFound(db, Some(uid), platform, now), PurchaseDoc(req, uid, platform, v), now)
  }

  /** `validateIAP` as written: the "user" update goes to the ledger
      collection, where it matches no document by the user's id and has no
      schema path to set, so only the ledger row is written. */
  function ValidateIAPAsWritten(db: Db, req: IAPRequest, issuer: IssuerAnswers, now: int): Outcome<IAPResponse> {
    match IAPDecision(db, req, issuer)
    case IAPReply(r) => Outcome(r, db)
    case IAPCommit(uid, platform, v) => CommitPurchase(db, db, PurchaseDoc(req, uid, platform, v), now)
  }

  /** The handler, step by step against the store; the commit takes a
      snapshot and restores it when the ledger insert aborts. */
  method ValidateIAP(store: Database, req: IAPRequest, issuer: IssuerAnswers, now: int) returns (resp: IAPResponse)
    requires store.Valid()
    modifies store
    ensures store.Valid()
    ensures Outcome(resp, store.Snapshot()) == ValidateIAPSpec(old(store.Snapshot()), req, issuer, now)
  {
    if req.caller.None? {
      return PaymentError;
    }
    var userId := req.caller.value;
    if !Truthy(req.receipt) || !Truthy(req.platform) || !Truthy(req.productId) {
      return MissingParameters;
    }
    var existing := FindUserTransaction(store.ledger, userId, req.transactionId);
    if existing.Some? {
      return AlreadyProcessed;
    }
    var platform: Platform;
    var validation: ValidationResult;
    if req.platform.value == "ios" {
      platform, validation := Ios, ValidateAppleReceipt(issuer.apple);
    } else if req.platform.value == "android" {
      platform, validation := Android, ValidateGoogleReceipt(issuer.google, req.productId.value);
    } else {
      return UnsupportedPlatform;
    }
    if validation.Invalid? {
      return InvalidReceipt(validation.error);
    }
    // The multi-document transaction.
    var saved := store.Snapshot();
    if userId in store.users {
      store.SaveUser(userId, GrantPremium(store.users[userId], platform, now));
    }
    var row := CreateTransaction(PurchaseDoc(req, userId, platform, validation), now);
    if row.Failure? {
      store.Restore(saved);
      return PaymentError;
    }
    var inserted := store.InsertTransaction(row.value);
    if !inserted {
      store.Restore(saved);
      return PaymentError;
    }
    resp := Activated(now + EntitlementPeriodMs);
  }

  // ------------------------------------------------------ IAP properties

  /** A request without receipt, platform or product id is a 400 and the
      store is untouched. */
  lemma IAPRejectsMissingInput(db: Db, req: IAPRequest, issuer: IssuerAnswers, now: int)
    requires req.caller.Some?
    requires !Truthy(req.receipt) || !Truthy(req.platform) || !Truthy(req.productId)
    ensures ValidateIAPSpec(db, req, issuer, now) == Outcome(MissingParameters, db)
    ensures IAPHttpStatus(MissingParameters) == 400
  {
  }

  /** A ledger row for the caller and the client's transaction id makes
      the call a 200 `alreadyProcessed` with no write, before the platform
      is even looked at. */
  lemma IAPAlreadyProcessed(db: Db, req: IAPRequest, issuer: IssuerAnswers, now: int)
    requires req.caller.Some? && Truthy(req.receipt) && Truthy(req.platform) && Truthy(req.productId)
    requires Keyed(db.ledger)
    requires exists k :: k in db.ledger && db.ledger[k].userId == req.caller.value
                         && Some(db.ledger[k].transactionId) == req.transactionId
    ensures ValidateIAPSpec(db, req, issuer, now) == Outcome(AlreadyProcessed, db)
    ensures IAPHttpStatus(AlreadyProcessed) == 200
  {
  }

  /** A platform other than ios or android is a 400 with no write. */
  lemma IAPRejectsUnknownPlatform(db: Db, req: IAPRequest, issuer: IssuerAnswers, now: int)
    requires req.caller.Some? && Truthy(req.receipt) && Truthy(req.platform) && Truthy(req.productId)
    requires FindUserTransaction(db.ledger, req.caller.value, req.transactionId).None?
    requires req.platform.value != "ios" && req.platform.value != "android"
    ensures ValidateIAPSpec(db, req, issuer, now) == Outcome(UnsupportedPlatform, db)
  {
  }

  /** The verdict of the platform's validator: invalid is a 400 with no
      write, and a receipt with a cancellation date is always invalid. */
  lemma IAPRejectsInvalidReceipt(db: Db, req: IAPRequest, issuer: IssuerAnswers, now: int)
    requires req.caller.Some? && Truthy(req.receipt) && Truthy(req.productId)
    requires FindUserTransaction(db.ledger, req.caller.value, req.transactionId).None?
    requires req.platform == Some("ios") || req.platform == Some("android")
    requires var v := if req.platform == Some("ios") then ValidateAppleReceipt(issuer.apple)
                      else ValidateGoogleReceipt(issuer.google, req.productId.value);
             v.Invalid?
    ensures ValidateIAPSpec(db, req, issuer, now).db == db
    ensures ValidateIAPSpec(db, req, issuer, now).response.InvalidReceipt?
  {
  }

  /** Nothing is written unless the purchase is activated. */
  lemma IAPWritesOnlyOnActivation(db: Db, req: IAPRequest, issuer: IssuerAnswers, now: int)
    ensures !ValidateIAPSpec(db, req, issuer, now).response.Activated? ==>
      ValidateIAPSpec(db, req, issuer, now).db == db
  {
  }

  /** Activation records the purchase: the validator's transaction id is
      a non-empty id not yet in the ledger and its purchase date is a valid
      date, and exactly one row is added under that id, for the caller and
      the platform, completed, with the receipt and `now`; the rows already
      there are kept. */
  lemma IAPActivation(db: Db, req: IAPRequest, issuer: IssuerAnswers, now: int)
    requires DbValid(db)
    requires ValidateIAPSpec(db, req, issuer, now).response.Activated?
    ensures IAPDecision(db, req, issuer).IAPCommit?
    ensures var step := IAPDecision(db, req, issuer);
      var v := step.validation;
      var o := ValidateIAPSpec(db, req, issuer, now);
      && o.response == Activated(now + EntitlementPeriodMs)
      && req.caller == Some(step.userId) && req.platform == Some(PlatformName(step.platform))
      && v.Valid? && Truthy(v.transactionId) && v.transactionId.value !in db.ledger
      && v.purchaseDate.ValidDate?
      && o.db.ledger == db.ledger[v.transactionId.value :=
           Transaction(step.userId, v.transactionId.value, step.platform, req.productId, None, None,
                       Some(v.purchaseDate.ms), req.receipt, Completed, now)]
    ensures DbValid(ValidateIAPSpec(db, req, issuer, now).db)
  {
    var step := IAPDecision(db, req, issuer);
    assert step.IAPCommit?;
    IAPCommitFacts(db, req, issuer);
    var written := GrantIfFound(db, Some(step.userId), step.platform, now);
    var row := CreateTransaction(PurchaseDoc(req, step.userId, step.platform, step.validation), now).value;
    var after := AddTransaction(written, row).value;
    assert ValidateIAPSpec(db, req, issuer, now) == Outcome(Activated(now + EntitlementPeriodMs), after);
    assert row.transactionId !in db.ledger;
    assert after.ledger == db.ledger[row.transactionId := row];
  }

  /** Activation, in the same commit, gives the caller's account (when it
      exists) the premium grant for the platform, and changes no other
      account, event or index. */
  lemma IAPActivationGrantsCaller(db: Db, req: IAPRequest, issuer: IssuerAnswers, now: int)
    requires DbValid(db)
    requires ValidateIAPSpec(db, req, issuer, now).response.Activated?
    ensures IAPDecision(db, req, issuer).IAPCommit?
    ensures var step := IAPDecision(db, req, issuer);
      var uid := step.userId;
      var o := ValidateIAPSpec(db, req, issuer, now);
      && req.caller == Some(uid) && req.platform == Some(PlatformName(step.platform))
      && o.db.events == db.events && o.db.byEmail == db.byEmail && o.db.nextId == db.nextId
      && o.db.users == (if uid in db.users then db.users[uid := GrantPremium(db.users[uid], step.platform, now)]
                        else db.users)
  {
    var step := IAPDecision(db, req, issuer);
    assert step.IAPCommit?;
    IAPCommitFacts(db, req, issuer);
    var uid := step.userId;
    var written := GrantIfFound(db, Some(uid), step.platform, now);
    var row := CreateTransaction(PurchaseDoc(req, uid, step.platform, step.validation), now).value;
    var after := AddTransaction(written, row).value;
    assert ValidateIAPSpec(db, req, issuer, now) == Outcome(Activated(now + EntitlementPeriodMs), after);
    assert after.users == written.users;
  }

  /** The commit is all or nothing: once the checks pass, the call is
      activated exactly when the validator's transaction id is a non-empty
      id not yet in the ledger (of any user) and its purchase date is a
      valid date; otherwise it is a 500 and neither the user update nor
      the row is kept. */
  lemma IAPCommitAllOrNothing(db: Db, req: IAPRequest, issuer: IssuerAnswers, now: int)
    requires IAPDecision(db, req, issuer).IAPCommit?
    ensures var v := IAPDecision(db, req, issuer).validation;
      var o := ValidateIAPSpec(db, req, issuer, now);
      && (o.response.Activated? <==>
            Truthy(v.transactionId) && v.transactionId.value !in db.ledger && v.purchaseDate.ValidDate?)
      && (!o.response.Activated? ==> o == Outcome(PaymentError, db))
  {
  }

  /** A receipt the issuer reports without a purchase time builds an
      Invalid Date, which the ledger schema refuses: the answer is a 500
      and the account stays free, for Apple and for Google alike. */
  lemma IAPUndatedPurchaseFails()
    ensures var req := IAPRequest(Some(0), Some("receipt"), Some("ios"), Some(PremiumProductId), Some("t-1"));
      var apple := AppleProducts(Some([ApplePurchase(Some(PremiumProductId), Some("t-1"), None, None, None)]));
      var issuer := IssuerAnswers(apple, GoogleAnswers(None, Failure(ProviderError(None, "unused")), Failure(ProviderError(None, "unused"))));
      ValidateIAPSpec(FreeAccountDb(), req, issuer, 10) == Outcome(PaymentError, FreeAccountDb())
    ensures var req := IAPRequest(Some(0), Some("{}"), Some("android"), Some(PremiumProductId), Some("GPA.1"));
      var google := GoogleAnswers(None, Success(GoogleReceiptData(Some("token"), Some("GPA.1"))),
                                  Success(GooglePurchase(Some(0), Some(0), None)));
      var issuer := IssuerAnswers(AppleFailed(ProviderError(None, "unused")), google);
      ValidateIAPSpec(FreeAccountDb(), req, issuer, 10) == Outcome(PaymentError, FreeAccountDb())
  {
  }

  /** No double grant: once a purchase has been activated, repeating the
      same call (a client retry), at any later time, writes nothing,
      whether the idempotency lookup catches it or the unique index
      aborts the commit. */
  lemma {:induction false} IAPNoDoubleGrant(db: Db, req: IAPRequest, issuer: IssuerAnswers, now: int, later: int)
    requires DbValid(db)
    requires ValidateIAPSpec(db, req, issuer, now).response.Activated?
    ensures var db1 := ValidateIAPSpec(db, req, issuer, now).db;
      ValidateIAPSpec(db1, req, issuer, later).db == db1
  {
    var step := IAPDecision(db, req, issuer);
    assert step.IAPCommit?;
    IAPCommitFacts(db, req, issuer);
    var written := GrantIfFound(db, Some(step.userId), step.platform, now);
    var row := CreateTransaction(PurchaseDoc(req, step.userId, step.platform, step.validation), now).value;
    var db1 := AddTransaction(written, row).value;
    assert ValidateIAPSpec(db, req, issuer, now) == Outcome(Activated(now + EntitlementPeriodMs), db1);
    assert row.transactionId in db1.ledger;
    match IAPDecision(db1, req, issuer)
    case IAPReply(r) =>
      assert ValidateIAPSpec(db1, req, issuer, later) == Outcome(r, db1);
    case IAPCommit(uid, platform, v) =>
      IAPCommitFacts(db1, req, issuer);
      assert uid == step.userId && platform == step.platform && v == step.validation;
      var doc := PurchaseDoc(req, uid, platform, v);
      assert CreateTransaction(doc, later).Success?;
      var row2 := CreateTransaction(doc, later).value;
      assert row2.transactionId == row.transactionId;
      var written2 := GrantIfFound(db1, Some(uid), platform, later);
      assert written2.ledger == db1.ledger;
      assert AddTransaction(written2, row2).Failure?;
  }

  // ------------------------------------------------------ Stripe webhook

  const CheckoutSessionCompleted := "checkout.session.completed"

  /** `client_reference_id`: absent (or empty), an id of a user document, or
      a string that does not cast to a document id. */
  datatype ClientReference = NoReference | UserReference(id: UserId) | MalformedReference

  /** The fields of the checkout session that the handler reads. */
  datatype CheckoutSession = CheckoutSession(
    id: Option<string>,
    clientReference: ClientReference,
    customerEmail: Option<string>)

  /** A Stripe event whose signature has been verified. */
  datatype WebhookEvent = WebhookEvent(id: string, eventType: string, session: CheckoutSession)

  datatype WebhookResponse =
    | SignatureRejected
    | Received(processed: bool)
    | ReceivedWithError

  /** Only a bad signature is refused; everything else is acknowledged. */
  function WebhookHttpStatus(r: WebhookResponse): (status: int)
    ensures status == 400 <==> r == SignatureRejected
    ensures status != 400 ==> status == 200
  {
    match r
    case SignatureRejected => 400
    case Received(_) => 200
    case ReceivedWithError => 200
  }

  /** The account the checkout is for: `{ _id: client_reference_id }` when
      a reference is present, `{ email }` otherwise. */
  function CheckoutTarget(db: Db, s: CheckoutSession): (r: Option<UserId>)
    requires s.clientReference != MalformedReference
    ensures s.clientReference.UserReference? ==>
      r == (if s.clientReference.id in db.users then Some(s.clientReference.id) else None)
    ensures s.clientReference.NoReference? ==> r == FindByEmail(db, s.customerEmail.GetOr(""))
  {
    match s.clientReference
    case UserReference(id) => if id in db.users then Some(id) else None
    case NoReference => FindByEmail(db, s.customerEmail.GetOr(""))
  }

  /** The event record written with the grant. */
  function EventDoc(ev: WebhookEvent, now: int): StripeEventDoc {
    StripeEventDoc(Some(ev.id), Some(ev.eventType),
                   if ev.session.clientReference.UserReference? then Some(ev.session.clientReference.id) else None,
                   ev.session.customerEmail, ev.session.id, Some(now))
  }

  /** Where the checks before the commit leave a delivery. */
  datatype WebhookStep =
    | WebhookReply(response: WebhookResponse)
    | WebhookCommit(event: WebhookEvent, target: Option<UserId>)

  /** The checks of `handleStripeWebhook`, in order: the signature (before
      any store access), the processed-event lookup, the event type, the
      presence of a user reference or email, and the cast of the reference. */
  function WebhookDecision(db: Db, verified: Option<WebhookEvent>): WebhookStep {
    if verified.None? then WebhookReply(SignatureRejected)
    else
      var ev := verified.value;
      if ev.id in db.events then WebhookReply(Received(false))
      else if ev.eventType != CheckoutSessionCompleted then WebhookReply(Received(true))
      else if ev.session.clientReference.NoReference? && !Truthy(ev.session.customerEmail) then WebhookReply(ReceivedWithError)
      else if ev.session.clientReference.MalformedReference? then WebhookReply(ReceivedWithError)
      else WebhookCommit(ev, CheckoutTarget(db, ev.session))
  }

  /** The multi-document transaction of the webhook: the user write is in
      `written`; recording the event either succeeds, keeping both, or
      aborts both. */
  function CommitCheckout(before: Db, written: Db, ev: WebhookEvent, now: int): Outcome<WebhookResponse> {
    match CreateStripeEvent(EventDoc(ev, now), now)
    case Failure(_) => Outcome(ReceivedWithError, before)
    case Success(record) =>
      match AddEvent(written, record)
      case Failure(_) => Outcome(ReceivedWithError, before)
      case Success(after) => Outcome(Received(true), after)
  }

  /** `handleStripeWebhook` with the user update the code evidently
      intends; `verified` is the event when the signature check passed. */
  function HandleStripeWebhookSpec(db: Db, verified: Option<WebhookEvent>, now: int): Outcome<WebhookResponse> {
    match WebhookDecision(db, verified)
    case WebhookReply(r) => Outcome(r, db)
    case WebhookCommit(ev, target) => CommitCheckout(db, GrantIfFound(db, target, Stripe, now), ev, now)
  }

  /** `handleStripeWebhook` as written: the update goes to the ledger
      collection and changes no account; only the event is recorded. */
  function HandleStripeWebhookAsWritten(db: Db, verified: Option<WebhookEvent>, now: int): Outcome<WebhookResponse> {
    match WebhookDecision(db, verified)
    case WebhookReply(r) => Outcome(r, db)
    case WebhookCommit(ev, target) => CommitCheckout(db, db, ev, now)
  }

  /** The handler, step by step against the store. */
  method HandleStripeWebhook(store: Database, verified: Option<WebhookEvent>, now: int) returns (resp: WebhookResponse)
    requires store.Valid()
    modifies store
    ensures store.Valid()
    ensures Outcome(resp, store.Snapshot()) == HandleStripeWebhookSpec(old(store.Snapshot()), verified, now)
  {
    if verified.None? {
      return SignatureRejected;
    }
    var event := verified.value;
    if event.id in store.events {
      return Received(false);
    }
    if event.eventType != CheckoutSessionCompleted {
      return Received(true);
    }
    var session := event.session;
    if session.clientReference.NoReference? && !Truthy(session.customerEmail) {
      return ReceivedWithError;
    }
    if session.clientReference.MalformedReference? {
      return ReceivedWithError;
    }
    // The multi-document transaction.
    var saved := store.Snapshot();
    var target := CheckoutTarget(store.Snapshot(), session);
    if target.Some? && target.value in store.users {
      store.SaveUser(target.value, GrantPremium(store.users[target.value], Stripe, now));
    }
    var record := CreateStripeEvent(EventDoc(event, now), now);
    if record.Failure? {
      store.Restore(saved);
      return ReceivedWithError;
    }
    var inserted := store.InsertStripeEvent(record.value);
    // The event id was looked up above and the user write leaves the
    // event collection alone, so the unique index cannot refuse it here.
    assert inserted;
    resp := Received(true);
  }

  // --------------------------------------------------- webhook properties

  /** A bad signature is a 400 before the store is consulted: the answer is
      the same whatever the store holds, and nothing is written. */
  lemma WebhookRejectsBadSignature(db: Db, other: Db, now: int)
    ensures HandleStripeWebhookSpec(db, None, now) == Outcome(SignatureRejected, db)
    ensures HandleStripeWebhookSpec(db, None, now).response == HandleStripeWebhookSpec(other, None, now).response
    ensures WebhookHttpStatus(SignatureRejected) == 400
  {
  }

  /** An event id already recorded is acknowledged as not processed and
      nothing is written. */
  lemma WebhookIgnoresRecordedEvent(db: Db, ev: WebhookEvent, now: int)
    requires ev.id in db.events
    ensures HandleStripeWebhookSpec(db, Some(ev), now) == Outcome(Received(false), db)
  {
  }

  /** Event types other than a completed checkout are acknowledged as
      processed, write nothing, and are not recorded. */
  lemma WebhookAcknowledgesOtherTypes(db: Db, ev: WebhookEvent, now: int)
    requires ev.id !in db.events && ev.eventType != CheckoutSessionCompleted
    ensures HandleStripeWebhookSpec(db, Some(ev), now) == Outcome(Received(true), db)
  {
  }

  /** A completed checkout with neither a user reference nor an email is
      acknowledged with an error and writes nothing. */
  lemma WebhookNeedsAnIdentifier(db: Db, ev: WebhookEvent, now: int)
    requires ev.id !in db.events && ev.eventType == CheckoutSessionCompleted
    requires ev.session.clientReference.NoReference? && !Truthy(ev.session.customerEmail)
    ensures HandleStripeWebhookSpec(db, Some(ev), now) == Outcome(ReceivedWithError, db)
    ensures WebhookHttpStatus(ReceivedWithError) == 200
  {
  }

  /** A new completed checkout with an identifier records the event and
      grants premium to the account found by reference, or by email when
      there is no reference; no other account and no ledger row changes. */
  lemma WebhookGrantsCheckout(db: Db, ev: WebhookEvent, now: int)
    requires DbValid(db)
    requires ev.id != "" && ev.id !in db.events && ev.eventType == CheckoutSessionCompleted
    requires ev.session.clientReference.UserReference? || (ev.session.clientReference.NoReference? && Truthy(ev.session.customerEmail))
    ensures var o := HandleStripeWebhookSpec(db, Some(ev), now);
      && o.response == Received(true)
      && o.db.events.Keys == db.events.Keys + {ev.id}
      && o.db.events[ev.id].processedAt == now
      && o.db.events[ev.id].email == ev.session.customerEmail
      && o.db.ledger == db.ledger && o.db.byEmail == db.byEmail
      && o.db.users.Keys == db.users.Keys
    ensures var o := HandleStripeWebhookSpec(db, Some(ev), now);
      var target := if ev.session.clientReference.UserReference? then ev.session.clientReference.id
                    else FindByEmail(db, ev.session.customerEmail.value).GetOr(db.nextId);
      && (forall id :: id in db.users && id != target ==> o.db.users[id] == db.users[id])
      && (target in db.users ==>
            o.db.users[target] == GrantPremium(db.users[target], Stripe, now))
  {
    var target := CheckoutTarget(db, ev.session);
    assert WebhookDecision(db, Some(ev)) == WebhookCommit(ev, target);
    var written := GrantIfFound(db, target, Stripe, now);
    var record := CreateStripeEvent(EventDoc(ev, now), now).value;
    var after := AddEvent(written, record).value;
    assert HandleStripeWebhookSpec(db, Some(ev), now) == Outcome(Received(true), after);
    assert after.users == written.users && after.ledger == db.ledger && after.byEmail == db.byEmail;
    var named := if ev.session.clientReference.UserReference? then ev.session.clientReference.id
                 else FindByEmail(db, ev.session.customerEmail.value).GetOr(db.nextId);
    if target.Some? {
      assert target.value == named;
      assert written.users == db.users[named := GrantPremium(db.users[named], Stripe, now)];
    } else {
      assert named !in db.users;
      assert written == db;
    }
  }

  /** Redelivering an event, at any later time, writes nothing more: the
      first delivery either wrote nothing or recorded the event. */
  lemma {:induction false} WebhookRedeliveryIsNoop(db: Db, verified: Option<WebhookEvent>, now: int, later: int)
    ensures var db1 := HandleStripeWebhookSpec(db, verified, now).db;
      HandleStripeWebhookSpec(db1, verified, later).db == db1
  {
    var o := HandleStripeWebhookSpec(db, verified, now);
    if o.db != db {
      var ev := verified.value;
      match WebhookDecision(db, verified)
      case WebhookReply(_) =>
      case WebhookCommit(e, target) =>
        var written := GrantIfFound(db, target, Stripe, now);
        var record := CreateStripeEvent(EventDoc(ev, now), now).value;
        assert AddEvent(written, record).Success?;
        assert ev.id in o.db.events;
    }
  }

  /** Only a new, identifiable completed checkout writes to the store. */
  lemma WebhookWritesOnlyOnCheckout(db: Db, verified: Option<WebhookEvent>, now: int)
    ensures var o := HandleStripeWebhookSpec(db, verified, now);
      o.db != db ==>
        && verified.Some? && verified.value.eventType == CheckoutSessionCompleted
        && verified.value.id !in db.events && o.response == Received(true)
  {
  }

  // ------------------------------------------------ behaviour as written

  /** As written, validating a purchase never changes an account: the
      ledger row is written and the caller stays as they were. */
  lemma IAPAsWrittenKeepsAccounts(db: Db, req: IAPRequest, issuer: IssuerAnswers, now: int)
    ensures ValidateIAPAsWritten(db, req, issuer, now).db.users == db.users
    ensures ValidateIAPAsWritten(db, req, issuer, now).response == ValidateIAPSpec(db, req, issuer, now).response
  {
  }

  /** As written, a completed checkout never changes an account either. */
  lemma WebhookAsWrittenKeepsAccounts(db: Db, verified: Option<WebhookEvent>, now: int)
    ensures HandleStripeWebhookAsWritten(db, verified, now).db.users == db.users
    ensures HandleStripeWebhookAsWritten(db, verified, now).response == HandleStripeWebhookSpec(db, verified, now).response
  {
  }

  /** The store of the counterexamples: one free account, empty ledger. */
  function FreeAccountDb(): Db {
    Db(map[0 := User("ana@example.com", None, Local, None, Member, Free, None, None, 0)],
       map["ana@example.com" := 0], map[], map[], 1)
  }

  /** A concrete paid purchase that, as written, leaves the payer free
      while the corrected handler makes them premium. */
  lemma IAPAsWrittenCounterexample()
    ensures var req := IAPRequest(Some(0), Some("receipt"), Some("ios"), Some(PremiumProductId), Some("t-1"));
      var apple := AppleProducts(Some([ApplePurchase(Some(PremiumProductId), Some("t-1"), Some(5), None, None)]));
      var issuer := IssuerAnswers(apple, GoogleAnswers(None, Failure(ProviderError(None, "unused")), Failure(ProviderError(None, "unused"))));
      var asWritten := ValidateIAPAsWritten(FreeAccountDb(), req, issuer, 10);
      var intended := ValidateIAPSpec(FreeAccountDb(), req, issuer, 10);
      && asWritten.response == Activated(10 + EntitlementPeriodMs)
      && "t-1" in asWritten.db.ledger
      && asWritten.db.users[0].subscriptionStatus == Free
      && intended.db.users[0].subscriptionStatus == Premium
  {
  }

  /** A concrete completed checkout that, as written, leaves the payer free. */
  lemma WebhookAsWrittenCounterexample()
    ensures var ev := WebhookEvent("evt_1", CheckoutSessionCompleted,
                                   CheckoutSession(Some("cs_1"), NoReference, Some("ana@example.com")));
      var asWritten := HandleStripeWebhookAsWritten(FreeAccountDb(), Some(ev), 10);
      var intended := HandleStripeWebhookSpec(FreeAccountDb(), Some(ev), 10);
      && asWritten.response == Received(true)
      && "evt_1" in asWritten.db.events
      && asWritten.db.users[0].subscriptionStatus == Free
      && intended.db.users[0].subscriptionStatus == Premium
  {
  }
}
