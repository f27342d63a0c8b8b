/**
 * The few JavaScript value semantics the resolvers depend on: which values
 * are falsy, and what `a || b` evaluates to.
 */
module Js {

  /** The values a GraphQL argument or a stored document field can hold. */
  datatype JsValue = Undefined | Null | Str(s: string) | Num(n: int)

  /** A `GraphQLString` or `GraphQLID` value: never a number. */
  type StrValue = v: JsValue | !v.Num? witness Undefined

  /** A `GraphQLInt` value: never a string. */
  type IntValue = v: JsValue | !v.Str? witness Undefined

  /** JavaScript truthiness: `undefined`, `null`, `""` and `0` are falsy. */
  predicate Truthy(v: JsValue) {
    match v
    case Undefined => false
    case Null => false
    case Str(s) => s != ""
    case Num(n) => n != 0
  }

  /** `a || b`: the left operand when it is truthy, otherwise the right one. */
  function Or(a: JsValue, b: JsValue): (r: JsValue)
    ensures r == a || r == b
    ensures Truthy(a) ==> r == a
    ensures !Truthy(a) ==> r == b
    ensures Truthy(r) <==> Truthy(a) || Truthy(b)
  {
    if Truthy(a) then a else b
  }

  /** The text a template literal `${v}` produces for a string-or-id value. */
  function Interpolate(v: StrValue): (t: string)
    ensures v.Str? ==> t == v.s
    ensures v.Undefined? ==> t == "undefined"
    ensures v.Null? ==> t == "null"
  {
    match v
    case Undefined => "undefined"
    case Null => "null"
    case Str(s) => s
  }
}
