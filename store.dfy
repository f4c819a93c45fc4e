/** The document store the handlers share: users keyed by id with a unique
    email index, the payment ledger keyed by transaction id, and the
    processed Stripe events keyed by event id. `Db` is its value; the
    `Database` class is the mutable handle the handlers write through. */
module Store {
  import opened Common
  import opened UserModel
  import opened TransactionModel
  import opened StripeEventModel

  datatype Db = Db(
    users: map<UserId, User>,
    byEmail: map<string, UserId>,
    ledger: Ledger,
    events: EventLog,
    nextId: UserId)

  /** What a handler answers, and the store it leaves behind. */
  datatype Outcome<+R> = Outcome(response: R, db: Db)

  /** The store's indexes: ids below the id counter, the unique email index
      in both directions, and each ledger row and event stored under its key. */
  predicate DbValid(db: Db) {
    && (forall id :: id in db.users ==> id < db.nextId)
    && (forall id :: id in db.users ==>
          db.users[id].email in db.byEmail && db.byEmail[db.users[id].email] == id)
    && (forall e :: e in db.byEmail ==>
          db.byEmail[e] in db.users && db.users[db.byEmail[e]].email == e)
    && Keyed(db.ledger)
    && EventsKeyed(db.events)
  }

  /** `User.findOne({ email })`, answered from the email index. */
  function FindByEmail(db: Db, email: string): (r: Option<UserId>)
    ensures r.Some? ==> r.value in db.users
    ensures DbValid(db) ==>
      (r.Some? <==> exists id :: id in db.users && db.users[id].email == email)
    ensures DbValid(db) && r.Some? ==> db.users[r.value].email == email
  {
    if email in db.byEmail && db.byEmail[email] in db.users then Some(db.byEmail[email]) else None
  }

  /** Saving a changed user whose email is unchanged. */
  function SetUser(db: Db, id: UserId, u: User): (r: Db)
    requires id in db.users && u.email == db.users[id].email
    ensures r.users == db.users[id := u]
    ensures r.byEmail == db.byEmail && r.ledger == db.ledger
    ensures r.events == db.events && r.nextId == db.nextId
    ensures DbValid(db) ==> DbValid(r)
  {
    db.(users := db.users[id := u])
  }

  /** Inserting a user with a fresh id and an email not yet indexed. */
  function AddUser(db: Db, u: User): (r: (UserId, Db))
    requires u.email !in db.byEmail
    ensures r.0 == db.nextId && r.1.nextId == db.nextId + 1
    ensures r.1.users == db.users[r.0 := u]
    ensures r.1.byEmail == db.byEmail[u.email := r.0]
    ensures r.1.ledger == db.ledger && r.1.events == db.events
    ensures DbValid(db) ==> r.0 !in db.users && DbValid(r.1)
  {
    (db.nextId, db.(users := db.users[db.nextId := u],
                    byEmail := db.byEmail[u.email := db.nextId],
                    nextId := db.nextId + 1))
  }

  /** Inserting a ledger row under the unique `transactionId` index. */
  function AddTransaction(db: Db, row: Transaction): (r: Result<Db, WriteError>)
    ensures r.Failure? <==> row.transactionId in db.ledger
    ensures r.Success? ==>
      && r.value == db.(ledger := r.value.ledger)
      && r.value.ledger.Keys == db.ledger.Keys + {row.transactionId}
      && r.value.ledger[row.transactionId] == row
      && (forall k :: k in db.ledger ==> r.value.ledger[k] == db.ledger[k])
    ensures r.Success? && DbValid(db) ==> DbValid(r.value)
  {
    match InsertRow(db.ledger, row)
    case Failure(e) => Failure(e)
    case Success(l) => Success(db.(ledger := l))
  }

  /** Inserting an event record under the unique `eventId` index. */
  function AddEvent(db: Db, e: StripeEvent): (r: Result<Db, WriteError>)
    ensures r.Failure? <==> e.eventId in db.events
    ensures r.Success? ==>
      && r.value == db.(events := r.value.events)
      && r.value.events.Keys == db.events.Keys + {e.eventId}
      && r.value.events[e.eventId] == e
      && (forall k :: k in db.events ==> r.value.events[k] == db.events[k])
    ensures r.Success? && DbValid(db) ==> DbValid(r.value)
  {
    match InsertEvent(db.events, e)
    case Failure(err) => Failure(err)
    case Success(log) => Success(db.(events := log))
  }

  class Database {
    var users: map<UserId, User>
    var byEmail: map<string, UserId>
    var ledger: Ledger
    var events: EventLog
    var nextId: UserId

    function Snapshot(): Db
      reads this
    {
      Db(users, byEmail, ledger, events, nextId)
    }

    predicate Valid()
      reads this
    {
      DbValid(Snapshot())
    }

    constructor ()
      ensures Valid()
      ensures Snapshot() == Db(map[], map[], map[], map[], 0)
    {
      users, byEmail, ledger, events, nextId := map[], map[], map[], map[], 0;
    }

    /** `user.save()` / `findByIdAndUpdate` of an existing user. */
    method SaveUser(id: UserId, u: User)
      requires Valid() && id in users && u.email == users[id].email
      modifies this
      ensures Valid()
      ensures Snapshot() == SetUser(old(Snapshot()), id, u)
    {
      users := users[id := u];
    }

    /** `User.create`: stores the document under a fresh id. */
    method InsertUser(u: User) returns (id: UserId)
      requires Valid() && u.email !in byEmail
      modifies this
      ensures Valid()
      ensures (id, Snapshot()) == AddUser(old(Snapshot()), u)
    {
      id := nextId;
      users := users[id := u];
      byEmail := byEmail[u.email := id];
      nextId := nextId + 1;
    }

    /** `Transaction.create`: fails on a duplicate transaction id. */
    method InsertTransaction(row: Transaction) returns (ok: bool)
      requires Valid()
      modifies this
      ensures Valid()
      ensures ok == AddTransaction(old(Snapshot()), row).Success?
      ensures Snapshot() == if ok then AddTransaction(old(Snapshot()), row).value else old(Snapshot())
    {
      ok := row.transactionId !in ledger;
      if ok {
        ledger := ledger[row.transactionId := row];
      }
    }

    /** `StripeEvent.create`: fails on a duplicate event id. */
    method InsertStripeEvent(e: StripeEvent) returns (ok: bool)
      requires Valid()
      modifies this
      ensures Valid()
      ensures ok == AddEvent(old(Snapshot()), e).Success?
      ensures Snapshot() == if ok then AddEvent(old(Snapshot()), e).value else old(Snapshot())
    {
      ok := e.eventId !in events;
      if ok {
        events := events[e.eventId := e];
      }
    }

    /** Aborting a multi-document transaction: every write made since the
        snapshot was taken is discarded. */
    method Restore(saved: Db)
      requires DbValid(saved)
      modifies this
      ensures Valid()
      ensures Snapshot() == saved
    {
      users, byEmail, ledger, events, nextId := saved.users, saved.byEmail, saved.ledger, saved.events, saved.nextId;
    }

    /** One pass of the TTL monitor over the processed-event collection. */
    method ExpireEvents(now: int)
      requires Valid()
      modifies this
      ensures Valid()
      ensures Snapshot() == old(Snapshot()).(events := Sweep(old(events), now))
    {
      events := Sweep(events, now);
    }
  }
}
