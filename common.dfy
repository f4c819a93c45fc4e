/** Values shared by every part of the backend model: optional values, results,
    user identifiers, JavaScript truthiness of optional strings, JavaScript
    dates and the validation errors a schema raises when a document is
    created. */
module Common {

  datatype Option<+T> = None | Some(value: T) {
    /** The value, or `default` when absent (JavaScript's `x || default`). */
    function GetOr(default: T): T {
      match this
      case Some(v) => v
      case None => default
    }
  }

  datatype Result<+T, +E> = Success(value: T) | Failure(error: E)

  /** Document identifiers of users (MongoDB ObjectIds) are drawn from a counter. */
  type UserId = nat

  /** JavaScript truthiness of a value that is either a string or undefined/null:
      `undefined`, `null` and `''` are falsy, every other string is truthy. */
  predicate Truthy(s: Option<string>) {
    s.Some? && s.value != ""
  }

  /** A JavaScript `Date`: a time value in milliseconds since the epoch, or
      the Invalid Date that `new Date(NaN)` builds. */
  datatype JsDate = ValidDate(ms: int) | InvalidDate

  /** `new Date(parseInt(x))` for a millisecond string `x`, given here as
      the number it parses to, or `None` when it is absent or not a number
      (where `parseInt` gives `NaN`). */
  function DateFromMs(x: Option<int>): (d: JsDate)
    ensures d.ValidDate? <==> x.Some?
    ensures d.ValidDate? ==> d.ms == x.value
  {
    if x.Some? then ValidDate(x.value) else InvalidDate
  }

  /** What a schema's validators report when a document cannot be created;
      `CastFailed` is a value the path's type cannot hold (an Invalid Date
      for a `Date` path). */
  datatype SchemaError =
    | MissingRequired(path: string)
    | NotInEnum(path: string, given: string)
    | CastFailed(path: string)

  /** What a unique index reports when an insert repeats an existing key. */
  datatype WriteError = DuplicateKey(key: string)
}
