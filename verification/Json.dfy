/** JSON values as Python sees them after `json.loads`, with the three operations the wire code
    relies on: truthiness, `dict.get`, and `==` against an integer. */
module Json {
  datatype Option<+T> = None | Some(value: T)

  /** Python reads integers and floats as different types, and also accepts `NaN` and the infinities. */
  datatype Value =
    | Null
    | Bool(b: bool)
    | Int(n: int)
    | Float(r: real)
    | NaN
    | Infinity(negative: bool)
    | Str(s: string)
    | Arr(items: seq<Value>)
    | Obj(fields: map<string, Value>)

  /** Python's `bool(v)`. */
  predicate Truthy(v: Value) {
    match v
    case Null => false
    case Bool(b) => b
    case Int(n) => n != 0
    case Float(r) => r != 0.0
    case NaN => true
    case Infinity(_) => true
    case Str(s) => s != ""
    case Arr(items) => items != []
    case Obj(fields) => fields != map[]
  }

  /** The values Python takes for false, one by one. */
  predicate Falsy(v: Value) {
    || v == Null || v == Bool(false) || v == Int(0) || v == Float(0.0)
    || v == Str("") || v == Arr([]) || v == Obj(map[])
  }

  /** Every other value is true, `NaN` and the infinities included. */
  lemma TruthyExactly(v: Value)
    ensures Truthy(v) <==> !Falsy(v)
  {
  }

  /** Python's `a or b`. */
  function Or(a: Value, b: Value): Value {
    if Truthy(a) then a else b
  }

  /** Python's `d.get(key, default)`. */
  function Get(d: map<string, Value>, key: string, default: Value): Value {
    if key in d then d[key] else default
  }

  /** Python's `v == n`: booleans and floats equal the integers they denote. */
  predicate EqualsInt(v: Value, n: int) {
    match v
    case Bool(b) => n == if b then 1 else 0
    case Int(m) => m == n
    case Float(r) => r == n as real
    case _ => false
  }

  /** The values that equal a number in Python, one by one. */
  predicate Equals(v: Value, n: int) {
    || v == Int(n) || v == Float(n as real)
    || (n == 0 && v == Bool(false)) || (n == 1 && v == Bool(true))
  }

  lemma EqualsIntExactly(v: Value, n: int)
    ensures EqualsInt(v, n) <==> Equals(v, n)
  {
  }

  /** Lists and dicts cannot be hashed, so `v in some_frozenset` raises for them. */
  predicate Hashable(v: Value) {
    !v.Arr? && !v.Obj?
  }
}
