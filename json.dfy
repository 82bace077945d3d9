/** JSON-compatible values as the rule strings see them, and JavaScript truthiness. */
module Json {

  /** `None` stands for JavaScript's `undefined` (an absent field, or no result). */
  datatype Option<+T> = None | Some(value: T) {
    function GetOr(default: T): T {
      match this
      case Some(v) => v
      case None => default
    }
  }

  /** A JSON value. Numbers are modelled as integers; objects keep their key order. */
  datatype Value =
    | Null
    | Bool(b: bool)
    | Num(n: int)
    | Str(s: string)
    | Arr(items: seq<Value>)
    | Obj(fields: seq<(string, Value)>)

  /** JavaScript truthiness: `false`, `0`, `""` and `null` are falsy, everything else truthy. */
  predicate Truthy(v: Value) {
    match v
    case Null => false
    case Bool(b) => b
    case Num(n) => n != 0
    case Str(s) => s != ""
    case Arr(_) => true
    case Obj(_) => true
  }

  /** Truthiness of a field or result that may be `undefined` (`!!x`, `if (x)`). */
  predicate Present(o: Option<Value>) {
    o.Some? && Truthy(o.value)
  }

  /** Truthiness of a field that, when present, is a string (an engine name, a message type). */
  predicate PresentName(o: Option<string>) {
    o.Some? && o.value != ""
  }
}
