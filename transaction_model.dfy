/** The payment ledger (backend/src/models/Transaction.js): one row per
    purchase, keyed by its `transactionId`, which a unique index makes unique
    across the whole ledger rather than per user. */
module TransactionModel {
  import opened Common

  /** The `platform` enum, also the values of a user's last payment method. */
  datatype Platform = Ios | Android | Stripe

  function PlatformName(p: Platform): string {
    match p
    case Ios => "ios"
    case Android => "android"
    case Stripe => "stripe"
  }

  /** The `enum` validator of `platform`: accepts exactly the three names. */
  function ParsePlatform(s: string): (r: Option<Platform>)
    ensures r.Some? ==> PlatformName(r.value) == s
    ensures r.None? ==> forall p :: PlatformName(p) != s
  {
    if s == "ios" then Some(Ios)
    else if s == "android" then Some(Android)
    else if s == "stripe" then Some(Stripe)
    else None
  }

  datatype TxStatus = Pending | Completed | Refunded

  function TxStatusName(t: TxStatus): string {
    match t
    case Pending => "pending"
    case Completed => "completed"
    case Refunded => "refunded"
  }

  /** The `enum` validator of `status`. */
  function ParseTxStatus(s: string): (r: Option<TxStatus>)
    ensures r.Some? ==> TxStatusName(r.value) == s
    ensures r.None? ==> forall t :: TxStatusName(t) != s
  {
    if s == "pending" then Some(Pending)
    else if s == "completed" then Some(Completed)
    else if s == "refunded" then Some(Refunded)
    else None
  }

  /** A stored ledger row. Dates are milliseconds since the epoch. */
  datatype Transaction = Transaction(
    userId: UserId,
    transactionId: string,
    platform: Platform,
    productId: Option<string>,
    amount: Option<real>,
    currency: Option<string>,
    purchaseDate: Option<int>,
    receiptData: Option<string>,
    status: TxStatus,
    createdAt: int)

  /** The fields handed to `Transaction.create`, before validation and defaults. */
  datatype TransactionDoc = TransactionDoc(
    userId: Option<UserId>,
    transactionId: Option<string>,
    platform: Option<string>,
    productId: Option<string>,
    amount: Option<real>,
    currency: Option<string>,
    purchaseDate: Option<JsDate>,
    receiptData: Option<string>,
    status: Option<string>)

  /** Schema casting, validation and defaults: a `purchaseDate` that is an
      Invalid Date fails the `Date` cast; `userId`, `transactionId` and
      `platform` are required (a required string must be non-empty),
      `platform` and `status` must be enum members, `status` defaults to
      pending and `createdAt` to the creation time. */
  function CreateTransaction(doc: TransactionDoc, now: int): (r: Result<Transaction, SchemaError>)
    ensures r.Success? <==>
      && doc.userId.Some?
      && Truthy(doc.transactionId)
      && doc.platform.Some? && ParsePlatform(doc.platform.value).Some?
      && (doc.status.None? || ParseTxStatus(doc.status.value).Some?)
      && doc.purchaseDate != Some(InvalidDate)
    ensures doc.purchaseDate == Some(InvalidDate) ==> r == Failure(CastFailed("purchaseDate"))
    ensures r.Success? ==>
      && r.value.userId == doc.userId.value
      && r.value.transactionId == doc.transactionId.value
      && PlatformName(r.value.platform) == doc.platform.value
      && TxStatusName(r.value.status) == doc.status.GetOr("pending")
      && r.value.productId == doc.productId
      && (r.value.purchaseDate.Some? <==> doc.purchaseDate.Some?)
      && (r.value.purchaseDate.Some? ==> Some(ValidDate(r.value.purchaseDate.value)) == doc.purchaseDate)
      && r.value.receiptData == doc.receiptData
      && r.value.createdAt == now
  {
    if doc.purchaseDate == Some(InvalidDate) then Failure(CastFailed("purchaseDate"))
    else if doc.userId.None? then Failure(MissingRequired("userId"))
    else if !Truthy(doc.transactionId) then Failure(MissingRequired("transactionId"))
    else if doc.platform.None? || doc.platform.value == "" then Failure(MissingRequired("platform"))
    else if ParsePlatform(doc.platform.value).None? then Failure(NotInEnum("platform", doc.platform.value))
    else match (if doc.status.None? then Some(Pending) else ParseTxStatus(doc.status.value))
      case None => Failure(NotInEnum("status", doc.status.value))
      case Some(status) =>
        Success(Transaction(doc.userId.value, doc.transactionId.value,
          ParsePlatform(doc.platform.value).value, doc.productId, doc.amount, doc.currency,
          if doc.purchaseDate.Some? then Some(doc.purchaseDate.value.ms) else None,
          doc.receiptData, status, now))
  }

  /** The ledger collection, indexed by the unique `transactionId`. */
  type Ledger = map<string, Transaction>

  /** Every row is stored under its own transaction id. */
  predicate Keyed(l: Ledger) {
    forall k :: k in l ==> l[k].transactionId == k
  }

  /** `Transaction.findOne({ userId, transactionId })`: a row matches only when
      both fields agree; an absent transaction id matches no row, since every
      row carries one. */
  function FindUserTransaction(l: Ledger, userId: UserId, transactionId: Option<string>): (r: Option<Transaction>)
    ensures Keyed(l) ==>
      (r.Some? <==> exists k :: k in l && l[k].userId == userId && Some(l[k].transactionId) == transactionId)
    ensures r.Some? ==> r.value in l.Values && r.value.userId == userId
  {
    if transactionId.Some? && transactionId.value in l && l[transactionId.value].userId == userId
    then Some(l[transactionId.value])
    else None
  }

  /** An insert under the unique index: it fails on a repeated id, whoever
      the existing row belongs to, and otherwise adds exactly that row. */
  function InsertRow(l: Ledger, row: Transaction): (r: Result<Ledger, WriteError>)
    ensures r.Failure? <==> row.transactionId in l
    ensures r.Success? ==>
      && r.value.Keys == l.Keys + {row.transactionId}
      && r.value[row.transactionId] == row
      && (forall k :: k in l ==> k in r.value && r.value[k] == l[k])
    ensures r.Success? && Keyed(l) ==> Keyed(r.value)
  {
    if row.transactionId in l then Failure(DuplicateKey(row.transactionId))
    else Success(l[row.transactionId := row])
  }
}
