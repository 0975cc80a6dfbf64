/** Types shared by every controller of the back office: document
    identifiers, the authenticated caller, calendar dates and the outcome of
    a request handler. */
module Common {

  /** An opaque document identifier (a Mongo ObjectId). */
  type Id = nat

  datatype Option<+T> = None | Some(value: T)

  /** The admin that the authentication middleware attaches to a request.
      The role is free text: admins may be created with any role string, and
      only the exact string "superadmin" lifts the ownership restrictions. */
  datatype Caller = Caller(id: Id, role: string)

  const SuperAdminRole: string := "superadmin"

  /** A failed request. ServerError stands for an exception that reaches the
      top-level error handler (a schema validation error or an unexpected
      duplicate key), which answers 500. */
  datatype Failure =
    | BadRequest(message: string)
    | Forbidden(message: string)
    | NotFound(message: string)
    | ServerError(message: string)
  {
    function Status(): (code: int)
      ensures code in {400, 403, 404, 500}
    {
      match this
      case BadRequest(_) => 400
      case Forbidden(_) => 403
      case NotFound(_) => 404
      case ServerError(_) => 500
    }
  }

  datatype Result<+T> = Ok(value: T) | Fail(failure: Failure)

  /** Calendar dates. Years are four-digit, as every Date the service
      produces; time of day is not modelled. */
  type Year = y: int | 1000 <= y <= 9999 witness 2000
  type Month = m: int | 1 <= m <= 12 witness 1
  type Day = d: int | 1 <= d <= 31 witness 1

  datatype Date = Date(year: Year, month: Month, day: Day)

  /** Chronological order on dates (the `$gte`/`$lte` comparisons). */
  predicate OnOrBefore(a: Date, b: Date)
  {
    a.year < b.year
    || (a.year == b.year && (a.month < b.month || (a.month == b.month && a.day <= b.day)))
  }

  /** A date window: each bound applies only when present. */
  datatype DateRange = DateRange(from: Option<Date>, to: Option<Date>)
  {
    predicate Contains(d: Date)
    {
      (from.None? || OnOrBefore(from.value, d)) && (to.None? || OnOrBefore(d, to.value))
    }
  }

  const Unbounded: DateRange := DateRange(None, None)

  /** A schema default: an absent field takes the default value. */
  function Or<T>(a: Option<T>, fallback: T): (r: T)
    ensures a.Some? ==> r == a.value
    ensures a.None? ==> r == fallback
  {
    if a.Some? then a.value else fallback
  }

  /** JavaScript's `a || b` on optional text: an absent or empty value falls
      back to the alternative. */
  function OrElse(a: Option<string>, b: string): (r: string)
    ensures a.Some? && a.value != "" ==> r == a.value
    ensures (a.None? || a.value == "") ==> r == b
  {
    if a.Some? && a.value != "" then a.value else b
  }

  /** `amount * rate / 100`: a tax or a commission at a percentage rate. */
  function Percent(amount: real, rate: real): real
  {
    amount * rate / 100.0
  }

  /** JavaScript truthiness of an optional text value (a query parameter
      that is absent or empty does not filter). */
  predicate Truthy(v: Option<string>)
  {
    v.Some? && v.value != ""
  }

  /** A date as a day count that orders as the calendar does, the key a
      `$sort` on a date field compares. */
  function DayNumber(d: Date): int
  {
    d.year * 372 + (d.month - 1) * 31 + (d.day - 1)
  }

  lemma DayNumberOrder(a: Date, b: Date)
    ensures OnOrBefore(a, b) <==> DayNumber(a) <= DayNumber(b)
  {
  }
}
