/** The JSON-like values that tasks, specs and API responses are made of. */
module Json {

  datatype Option<+T> = None | Some(value: T)

  /** A scalar keeps its own equality; floating point numbers are kept as their text. */
  datatype Value =
    | Null
    | Bool(b: bool)
    | Int(n: int)
    | Float(text: string)
    | Str(s: string)
    | List(items: seq<Value>)
    | Dict(fields: map<string, Value>)

  type Fields = map<string, Value>

  /** The text the API shows in place of a secret. */
  const ENCRYPTED: Value := Str("$encrypted$")

  /** Reading a key that may be missing: a missing key reads as Null. */
  function Get(obj: Fields, key: string): Value {
    if key in obj then obj[key] else Null
  }

  /** Truth value of a JSON value in a condition. */
  predicate Truthy(v: Value) {
    match v
    case Null => false
    case Bool(b) => b
    case Int(n) => n != 0
    case Float(text) => text !in {"0.0", "-0.0"}
    case Str(s) => s != ""
    case List(items) => items != []
    case Dict(fields) => fields != map[]
  }

  /** Null, false, zero and empty: the values a condition takes for false. */
  predicate Blank(v: Value) {
    || v == Null || v == Bool(false) || v == Int(0) || v == Float("0.0") || v == Float("-0.0")
    || v == Str("") || v == List([]) || v == Dict(map[])
  }

  lemma TruthyUnlessBlank(v: Value)
    ensures Truthy(v) <==> !Blank(v)
  {
  }
}
