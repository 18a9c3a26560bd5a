/** Shared vocabulary: optional values, results with the service's error
    statuses, and the JSON-like values that request bodies and stored
    documents are made of. */
module Common {

  datatype Option<+T> = None | Some(value: T)

  /** How a controller can fail. `Status(code)` is an error thrown with an
      explicit `err.status` (400, 404); `Unclassified` is an exception thrown
      by a library call with no status attached. */
  datatype Error = Status(code: int) | Unclassified

  datatype Result<+T> = Ok(value: T) | Err(error: Error)

  const BadRequest: Error := Status(400)
  const NotFound: Error := Status(404)

  /** A value of a JSON request body or of a stored document field.
      `Undefined` is what reading an absent property yields; `Time` is a
      store timestamp (milliseconds). */
  datatype Value =
    | Undefined
    | Null
    | Bool(b: bool)
    | Num(n: int)
    | Str(s: string)
    | Time(t: int)
    | Arr(items: seq<Value>)
    | Obj(fields: map<string, Value>)

  /** A `startAfter` argument: the text received (`""` when absent, null or
      empty, all of which are falsy) and the instant `new Date(text)` denotes,
      `None` for an Invalid Date. Date parsing itself is not modelled. */
  datatype Cursor = Cursor(text: string, instant: Option<int>) {
    predicate Given() { text != "" }

    /** The position handed to the store's `startAfter`, if any. */
    function Bound(): Option<int> { if Given() then instant else None }
  }

  /** JavaScript truthiness of a value. */
  predicate Truthy(v: Value) {
    match v
    case Undefined => false
    case Null => false
    case Bool(b) => b
    case Num(n) => n != 0
    case Str(s) => s != ""
    case _ => true
  }

  /** `obj[k]`: the property if present, `undefined` otherwise. */
  function Field(obj: map<string, Value>, k: string): Value
  {
    if k in obj then obj[k] else Undefined
  }

  /** `a || b`: the left operand when truthy, the right one otherwise. */
  function Or(a: Value, b: Value): Value
  {
    if Truthy(a) then a else b
  }

  /** `v?.k`: optional chaining on a property read. Only objects have
      a property named by an arbitrary key here. */
  function Chain(v: Value, k: string): Value
  {
    if v.Obj? then Field(v.fields, k) else Undefined
  }
}
