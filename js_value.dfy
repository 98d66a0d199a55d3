/** The JavaScript values the node reads from a parsed JSON response body:
    what `JSON.parse` can produce, plus `undefined` for a property that is
    absent, and the truthiness rule that `||`, `&&` and `if` apply to them. */
module JsValue {
  import opened Wrappers

  /** A value that `JSON.parse` can produce. Numbers are modelled as reals:
      `JSON.parse` gives no NaN, but its doubles can round (a tiny literal to
      zero, a huge one to an infinity), which this model does not represent. */
  datatype Json =
    | Null
    | Bool(b: bool)
    | Num(n: real)
    | Str(s: string)
    | Arr(elems: seq<Json>)
    | Obj(props: map<string, Json>)

  /** The result of reading a property: `undefined` or a JSON value. */
  datatype Value = Undefined | Defined(json: Json)

  /** JavaScript's ToBoolean on the values above: `undefined`, `null`,
      `false`, `0`, `-0` and the empty string are falsy; every array and
      every object, empty or not, is truthy. */
  predicate Truthy(v: Value) {
    match v
    case Undefined => false
    case Defined(j) =>
      match j
      case Null => false
      case Bool(b) => b
      case Num(n) => n != 0.0
      case Str(s) => s != ""
      case Arr(_) => true
      case Obj(_) => true
  }

  /** `x || y`: the left operand when it is truthy, the right one otherwise. */
  function Or(x: Value, y: Value): (r: Value)
    ensures r == x || r == y
    ensures Truthy(r) <==> Truthy(x) || Truthy(y)
  {
    if Truthy(x) then x else y
  }

  /** Reading `body.key`. Reading a property of `null` throws a TypeError
      (the message is V8's wording); reading an own property of an object
      gives its value; every other read gives `undefined`. This is exact only
      for keys that no built-in prototype defines, which holds for the five
      keys the node reads (`sentiment`, `confidence`, `text_length`,
      `industry`, `scores`). */
  function Property(body: Json, key: string): Result<Value> {
    match body
    case Null => Err("Cannot read properties of null (reading '" + key + "')")
    case Obj(props) => if key in props then Ok(Defined(props[key])) else Ok(Undefined)
    case _ => Ok(Undefined)
  }
}
