/** Python values as they arrive from the JSON documents the pipeline reads,
    and the Python exceptions the pipeline can raise while shaping them. */
module PyValues {

  /** A decoded JSON value. `Null` is Python's `None`; an `Object` is a dict
      whose key order is irrelevant to the code that reads it. JSON floats are
      not distinguished from integers (see README). */
  datatype Value =
    | Null
    | Bool(b: bool)
    | Num(n: int)
    | Str(s: string)
    | Array(items: seq<Value>)
    | Object(fields: map<string, Value>)

  /** The exceptions the modelled code raises. */
  datatype Error =
    | KeyError(key: Value)          // `d[k]` with `k` not a key of dict `d`
    | TypeError                     // subscripting a value that does not support it
    | AttributeError(attr: string)  // calling a method the value's type lacks
    | FileNotFound(filename: string)
    | GenerationFailure(reason: string)

  /** A computation that either yields a value or raises. */
  datatype Result<+T> = Success(value: T) | Failure(error: Error) {
    predicate IsFailure() {
      Failure?
    }

    function PropagateFailure<U>(): Result<U>
      requires Failure?
    {
      Failure(error)
    }

    function Extract(): T
      requires Success?
    {
      value
    }
  }

  /** Python's truth value of a JSON value (`bool(v)`). */
  predicate Truthy(v: Value) {
    match v
    case Null => false
    case Bool(b) => b
    case Num(n) => n != 0
    case Str(s) => s != []
    case Array(items) => items != []
    case Object(fields) => fields != map[]
  }

  /** `d.get(key)` on a dict: the field, or `None` when it is absent. */
  function Field(fields: map<string, Value>, key: string): Value {
    if key in fields then fields[key] else Null
  }

  /** `d.get(key)` on any value: AttributeError unless `d` is a dict. */
  function Get(d: Value, key: string): Result<Value> {
    if d.Object? then Success(Field(d.fields, key)) else Failure(AttributeError("get"))
  }
}
