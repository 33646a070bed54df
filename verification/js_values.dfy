/** The part of JavaScript's value semantics that the guards of
    `createAuthenticationToken` depend on: what a value is, when it is
    falsy (ToBoolean, section 7.1.2 of ECMA-262), what `typeof` answers
    (section 13.5.3 of ECMA-262), and how a falsy value prints when it is
    concatenated to a string (ToString, section 7.1.17 of ECMA-262). */
module JsValues {

  /** A JavaScript value as a caller may pass it for a parameter typed
      `string`: TypeScript types are erased, so any value can arrive.
      A Number is a real (+0 and -0 are both 0.0) or NaN. */
  datatype JsValue =
    | Undefined
    | Null
    | Bool(b: bool)
    | Num(n: real)
    | NaN
    | BigInt(i: int)
    | Str(s: string)
    | Symbol
    | Obj
    | Function

  /** ToBoolean: exactly seven values are falsy. */
  function ToBoolean(v: JsValue): (truthy: bool)
    ensures !truthy <==> v in {Undefined, Null, Bool(false), Num(0.0), NaN, BigInt(0), Str("")}
    ensures v.Str? ==> (truthy <==> |v.s| > 0)
  {
    match v
    case Undefined => false
    case Null => false
    case Bool(b) => b
    case Num(n) => n != 0.0
    case NaN => false
    case BigInt(i) => i != 0
    case Str(s) => s != ""
    case Symbol => true
    case Obj => true
    case Function => true
  }

  /** The `typeof` operator; `typeof null` is "object". */
  function TypeOf(v: JsValue): (tag: string)
    ensures tag == "string" <==> v.Str?
    ensures tag in {"undefined", "object", "boolean", "number", "bigint", "string", "symbol", "function"}
  {
    match v
    case Undefined => "undefined"
    case Null => "object"
    case Bool(_) => "boolean"
    case Num(_) => "number"
    case NaN => "number"
    case BigInt(_) => "bigint"
    case Str(_) => "string"
    case Symbol => "symbol"
    case Obj => "object"
    case Function => "function"
  }

  /** ToString of a falsy value, which is what `'text' + v` appends. */
  function FalsyText(v: JsValue): (text: string)
    requires !ToBoolean(v)
    ensures v == Undefined ==> text == "undefined"
    ensures v == Null ==> text == "null"
    ensures v == Bool(false) ==> text == "false"
    ensures text == "0" <==> v == Num(0.0) || v == BigInt(0)
    ensures v == NaN ==> text == "NaN"
    ensures text == "" <==> v == Str("")
  {
    match v
    case Undefined => "undefined"
    case Null => "null"
    case Bool(_) => "false"
    case Num(_) => "0"
    case NaN => "NaN"
    case BigInt(_) => "0"
    case Str(_) => ""
    case Symbol => ""
    case Obj => ""
    case Function => ""
  }
}
