/** JavaScript values as they arrive in a parsed JSON request body or a
    decoded token payload, with the truthiness rule that the `||` operator
    and the `!x` tests of the handlers depend on. */
module JsValues {

  /** A JSON value, plus `undefined` (what reading a missing property gives).
      Numbers are reals: a JSON body cannot carry NaN or the infinities. */
  datatype JsValue =
    | Undefined
    | Null
    | Bool(b: bool)
    | Num(n: real)
    | Str(s: string)
    | Arr(items: seq<JsValue>)
    | Obj(props: map<string, JsValue>)

  /** A parsed request body, or a token's claim set: property name to value. */
  type Body = map<string, JsValue>

  /** JS truthiness: `undefined`, `null`, `false`, `0` and `""` are falsy;
      every array and every object, even an empty one, is truthy. */
  predicate Truthy(v: JsValue)
    ensures Truthy(v) ==> !v.Undefined? && !v.Null?
    ensures v.Arr? || v.Obj? ==> Truthy(v)
  {
    match v
    case Undefined => false
    case Null => false
    case Bool(b) => b
    case Num(n) => n != 0.0
    case Str(s) => s != ""
    case Arr(_) => true
    case Obj(_) => true
  }

  /** `a || b`: the left operand when it is truthy, otherwise the right one. */
  function Or(a: JsValue, b: JsValue): (r: JsValue)
    ensures r == a || r == b
    ensures Truthy(r) <==> Truthy(a) || Truthy(b)
  {
    if Truthy(a) then a else b
  }

  /** `obj.key`: the property's value, or `undefined` when it is absent. */
  function Get(obj: Body, key: string): (v: JsValue)
    ensures key !in obj ==> v == Undefined
  {
    if key in obj then obj[key] else Undefined
  }

  /** The falsy values are exactly the ones listed by the JS standard for
      JSON-representable data; an empty array is not among them. */
  lemma FalsyValues()
    ensures !Truthy(Undefined) && !Truthy(Null) && !Truthy(Bool(false))
    ensures !Truthy(Num(0.0)) && !Truthy(Str(""))
    ensures Truthy(Arr([])) && Truthy(Obj(map[])) && Truthy(Str(" ")) && Truthy(Num(-1.0))
  {
  }
}
