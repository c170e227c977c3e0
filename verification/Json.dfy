/** Dynamically typed values, as the program's JSON layer sees them. */
module Json {

  datatype Option<+T> = None | Some(value: T)

  datatype Result<+T, +E> = Ok(value: T) | Err(error: E)

  /** A JSON value. A float is kept as its 64-bit pattern: no operation here computes with one. */
  datatype Value =
    | Null
    | Bool(b: bool)
    | Int(n: int)
    | Float(bits: bv64)
    | Str(s: string)
    | List(items: seq<Value>)
    | Object(fields: map<string, Value>)

  /** Python's truth test, which `x or default` and `if x:` rely on. */
  predicate Truthy(v: Value) {
    match v
    case Null => false
    case Bool(b) => b
    case Int(n) => n != 0
    case Float(bits) => bits != 0 && bits != 0x8000_0000_0000_0000
    case Str(s) => s != ""
    case List(items) => items != []
    case Object(fields) => fields != map[]
  }

  /** `a or b` */
  function Or(a: Value, b: Value): Value {
    if Truthy(a) then a else b
  }

  /** `d.get(k, default)` */
  function Get<K>(d: map<K, Value>, k: K, default: Value): Value {
    if k in d then d[k] else default
  }

  /** What Python counts as false: None, False, zeros of either sign, and what is empty. */
  lemma FalsyValues(v: Value)
    ensures !Truthy(v) <==>
              v in {Null, Bool(false), Int(0), Float(0), Float(0x8000_0000_0000_0000), Str(""), List([]), Object(map[])}
    ensures forall w :: (Truthy(v) ==> Or(v, w) == v) && (!Truthy(v) ==> Or(v, w) == w)
  {
  }
}
