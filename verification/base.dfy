/** Vocabulary shared by the model of the events app: identifiers, optional
    values, the shape of a JSON request body as the request handlers read it,
    response statuses, and Django's `parse_datetime` as a parameter. */
module Base {

  /** Primary keys of `auth.User` and `events.Event`. */
  type UserId = int
  type EventId = nat

  /** An instant. The handlers store and return instants but never compare them. */
  type Time = int

  datatype Option<+T> = None | Some(value: T)

  /** One key of a JSON object as `request.data` exposes it: missing, explicitly
      `null`, or carrying a value. */
  datatype Json<+T> = Absent | Null | Given(value: T)

  /** `data.get(key)`: `None` both for a missing key and for `null`. */
  function Get<T>(f: Json<T>): (r: Option<T>)
    ensures r.Some? <==> f.Given?
    ensures r.Some? ==> f == Given(r.value)
  {
    match f
    case Given(v) => Some(v)
    case _ => None
  }

  /** `data.get(key, default)`: the default replaces a missing key only; an
      explicit `null` still reads as `None`. */
  function GetOr<T>(f: Json<T>, default: T): (r: Option<T>)
    ensures f.Absent? ==> r == Some(default)
    ensures f.Null? ==> r == None
    ensures f.Given? ==> r == Some(f.value)
  {
    match f
    case Absent => Some(default)
    case Null => None
    case Given(v) => Some(v)
  }

  /** Python truthiness of an optional string: `None` and `""` are false. */
  predicate Truthy(v: Option<string>) {
    v.Some? && v.value != ""
  }

  /** A request body, or one element of a list in it: a JSON object, or
      anything else, on which `.get` raises `AttributeError`. */
  datatype Body<+T> = Object(fields: T) | NotObject

  /** Response statuses. `ServerError` stands for an exception that escapes
      the handler; the framework turns it into a 500 response. */
  datatype Status = Ok | Created | BadRequest | Forbidden | NotFound | ServerError

  /** What `parse_datetime` does with a string: returns a datetime, returns
      `None` when the text is not in a recognised format, or raises
      `ValueError` when it is well formatted but names no valid instant. */
  datatype Parsed = Parsed(time: Time) | NoMatch | Raises {
    /** The value an assignment of the call's result stores. */
    function AsTime(): Option<Time>
      requires !Raises?
    {
      if Parsed? then Some(time) else None
    }
  }

  /** The date parser is not part of this model; every operation that parses
      takes it as a parameter. */
  type Parser = string -> Parsed

  /** `parse_datetime(data.get(key))`: the parser is applied to the value
      read from the body, and a missing value (`None`) makes it raise
      `TypeError`, since it only accepts strings. */
  function ParseDateTime(parse: Parser, v: Option<string>): (r: Parsed)
    ensures v.None? ==> r.Raises?
    ensures v.Some? ==> r == parse(v.value)
  {
    match v
    case None => Raises
    case Some(text) => parse(text)
  }
}
