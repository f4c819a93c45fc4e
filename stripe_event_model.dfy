/** Processed Stripe events (backend/src/models/StripeEvent.js): the
    idempotency record of the webhook, keyed by the unique `eventId`, with a
    time-to-live index that ages entries out after 90 days. */
module StripeEventModel {
  import opened Common

  /** A stored event record; `processedAt` is milliseconds since the epoch. */
  datatype StripeEvent = StripeEvent(
    eventId: string,
    eventType: Option<string>,
    userId: Option<UserId>,
    email: Option<string>,
    sessionId: Option<string>,
    processedAt: int)

  /** The fields handed to `StripeEvent.create`, before validation and defaults. */
  datatype StripeEventDoc = StripeEventDoc(
    eventId: Option<string>,
    eventType: Option<string>,
    userId: Option<UserId>,
    email: Option<string>,
    sessionId: Option<string>,
    processedAt: Option<int>)

  /** Schema validation and defaults: only `eventId` is required; the other
      fields are optional and kept as given; `processedAt` defaults to the
      creation time. */
  function CreateStripeEvent(doc: StripeEventDoc, now: int): (r: Result<StripeEvent, SchemaError>)
    ensures r.Success? <==> Truthy(doc.eventId)
    ensures r.Success? ==>
      && r.value.eventId == doc.eventId.value
      && r.value.eventType == doc.eventType
      && r.value.userId == doc.userId
      && r.value.email == doc.email
      && r.value.sessionId == doc.sessionId
      && r.value.processedAt == doc.processedAt.GetOr(now)
  {
    if !Truthy(doc.eventId) then Failure(MissingRequired("eventId"))
    else Success(StripeEvent(doc.eventId.value, doc.eventType, doc.userId, doc.email,
                             doc.sessionId, doc.processedAt.GetOr(now)))
  }

  /** `expireAfterSeconds` of the TTL index on `processedAt`: 90 days. */
  const RetentionSeconds: nat := 7776000
  const RetentionMs: nat := RetentionSeconds * 1000

  /** The event collection, indexed by the unique `eventId`. */
  type EventLog = map<string, StripeEvent>

  predicate EventsKeyed(log: EventLog) {
    forall k :: k in log ==> log[k].eventId == k
  }

  /** An insert under the unique index on `eventId`. */
  function InsertEvent(log: EventLog, e: StripeEvent): (r: Result<EventLog, WriteError>)
    ensures r.Failure? <==> e.eventId in log
    ensures r.Success? ==>
      && r.value.Keys == log.Keys + {e.eventId}
      && r.value[e.eventId] == e
      && (forall k :: k in log ==> k in r.value && r.value[k] == log[k])
    ensures r.Success? && EventsKeyed(log) ==> EventsKeyed(r.value)
  {
    if e.eventId in log then Failure(DuplicateKey(e.eventId))
    else Success(log[e.eventId := e])
  }

  /** The TTL monitor may delete an entry once its age exceeds the retention. */
  predicate Expired(e: StripeEvent, now: int) {
    e.processedAt + RetentionMs < now
  }

  /** One pass of the TTL monitor: it removes exactly the expired entries, so
      every event processed within the last 90 days stays recorded. */
  function Sweep(log: EventLog, now: int): (r: EventLog)
    ensures forall k :: k in r ==> k in log && r[k] == log[k]
    ensures forall k :: k in log ==> (k in r <==> !Expired(log[k], now))
    ensures forall k :: k in log && now <= log[k].processedAt + RetentionMs ==> k in r
    ensures EventsKeyed(log) ==> EventsKeyed(r)
  {
    map k | k in log && !Expired(log[k], now) :: log[k]
  }
}
