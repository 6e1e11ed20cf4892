/**
 * JavaScript values as they arrive from `JSON.parse` or an HTTP body, with the
 * three operators the components apply to them: truthiness, `a || b` and `a ?? b`.
 * `None` in an `Option<JsValue>` is `undefined`; `Null` is JSON `null`.
 */
module JsonValue {
  import opened Wrappers

  datatype JsValue =
    | Null
    | Bool(b: bool)
    | Num(n: int)
    | Str(s: string)
    | Arr(items: seq<JsValue>)
    | Obj(fields: map<string, JsValue>)

  /** JavaScript truthiness: `null`, `false`, `0` and `""` are falsy; arrays and objects are truthy. */
  predicate Truthy(v: JsValue) {
    match v
    case Null => false
    case Bool(b) => b
    case Num(n) => n != 0
    case Str(s) => s != ""
    case Arr(_) => true
    case Obj(_) => true
  }

  /** Truthiness of a value that may be `undefined`. */
  predicate TruthyOpt(v: Option<JsValue>) {
    v.Some? && Truthy(v.value)
  }

  /** Neither `null` nor `undefined`: what `??` tests. */
  predicate Present(v: Option<JsValue>) {
    v.Some? && !v.value.Null?
  }

  /**
   * Property access `v.key` on a value that is not `null` (on `null` JavaScript
   * throws, and every caller handles that case before reaching here).
   */
  function Get(v: JsValue, key: string): (r: Option<JsValue>)
    requires !v.Null?
    ensures r.Some? ==> v.Obj? && key in v.fields && r.value == v.fields[key]
    ensures v.Obj? && key in v.fields ==> r.Some?
  {
    if v.Obj? && key in v.fields then Some(v.fields[key]) else None
  }

  /** `a || b`: the left operand when it is truthy, otherwise the right one. */
  function Or(a: Option<JsValue>, b: JsValue): (r: JsValue)
    ensures TruthyOpt(a) ==> r == a.value
    ensures !TruthyOpt(a) ==> r == b
  {
    if TruthyOpt(a) then a.value else b
  }

  /** `a ?? b`: the left operand unless it is `null` or `undefined`. */
  function Coalesce(a: Option<JsValue>, b: Option<JsValue>): (r: Option<JsValue>)
    ensures Present(a) ==> r == a
    ensures !Present(a) ==> r == b
  {
    if Present(a) then a else b
  }

  /** The entries of an object after `{ ...v }`: an object's own fields, nothing for anything else. */
  function Spread(v: JsValue): map<string, JsValue> {
    if v.Obj? then v.fields else map[]
  }
}
