/**
 * The slice of JavaScript's value model the class-name builder depends on:
 * truthiness, `typeof … === "object"`, property reads through destructuring,
 * and the string a template literal `${v}` produces.
 */
module JsValues {
  import opened Strings

  /**
   * A JavaScript value. Numbers are split into integers (printed in decimal)
   * and every other number (`Float`), which carries the text JavaScript prints
   * for it, such as "0.5" or "NaN".
   */
  datatype JsValue =
    | Undefined
    | Null
    | Bool(b: bool)
    | Int(i: int)
    | Float(text: string)
    | Str(s: string)
    | Obj(fields: map<string, JsValue>)
    | Arr(items: seq<JsValue>)

  /** `!!v` */
  predicate Truthy(v: JsValue) {
    match v
    case Undefined => false
    case Null => false
    case Bool(b) => b
    case Int(i) => i != 0
    case Float(t) => t != "NaN"
    case Str(s) => s != ""
    case Obj(_) => true
    case Arr(_) => true
  }

  /** `typeof v === "object"`, which holds for `null` and for arrays. */
  predicate IsObject(v: JsValue) {
    v.Null? || v.Obj? || v.Arr?
  }

  /**
   * The value destructuring reads for `key` from `v`. Only plain objects
   * carry the named keys used by the style helpers; primitives and arrays
   * yield `undefined`.
   */
  function Field(v: JsValue, key: string): JsValue {
    if v.Obj? && key in v.fields then v.fields[key] else Undefined
  }

  /** The text of `${v}`; arrays print their elements joined by ",". */
  function ToJsString(v: JsValue): string
    decreases v
  {
    match v
    case Undefined => "undefined"
    case Null => "null"
    case Bool(b) => if b then "true" else "false"
    case Int(i) => IntToString(i)
    case Float(t) => t
    case Str(s) => s
    case Obj(_) => "[object Object]"
    case Arr(items) =>
      Join(seq(|items|, k requires 0 <= k < |items| =>
                 if items[k].Undefined? || items[k].Null? then "" else ToJsString(items[k])), ",")
  }
}
