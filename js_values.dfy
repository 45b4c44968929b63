/**
 * JSON values as they arrive in a request body, with JavaScript's
 * truthiness (`!!v`). NaN is not representable here.
 */
module JsValues {
  datatype JsValue = JUndefined | JNull | JBool(b: bool) | JNum(n: int) | JStr(s: string)

  /** `!!v` in JavaScript: undefined, null, false, 0 and "" are falsy. */
  predicate Truthy(v: JsValue)
  {
    match v
    case JUndefined => false
    case JNull => false
    case JBool(b) => b
    case JNum(n) => n != 0
    case JStr(s) => s != ""
  }

  /** A property of a body object; a missing key reads as undefined. */
  function Get(body: map<string, JsValue>, key: string): (v: JsValue)
    ensures key !in body ==> v == JUndefined
  {
    if key in body then body[key] else JUndefined
  }
}
