/**
  The JavaScript values the users middleware reads and writes: what
  `express.json()` parses a request body into, the objects it sends back
  with `res.send`, and `undefined` for a property that is not there.
 */
module JsValue {

  /** A JavaScript value. Numbers are integers here (see README, "Left out"). */
  datatype Value =
    | Undefined
    | Null
    | Bool(b: bool)
    | Num(n: int)
    | Str(s: string)
    | Arr(items: seq<Value>)
    | Obj(fields: map<string, Value>)

  /** JavaScript truthiness, as `if (v)` evaluates it. */
  predicate Truthy(v: Value) {
    match v
    case Undefined => false
    case Null => false
    case Bool(b) => b
    case Num(n) => n != 0
    case Str(s) => s != ""
    case Arr(_) => true
    case Obj(_) => true
  }

  /** The property read `o.key` on a plain object: `undefined` when `key` is not one of its own keys. */
  function Get(o: map<string, Value>, key: string): Value {
    if key in o then o[key] else Undefined
  }
}
