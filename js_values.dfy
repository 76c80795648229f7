/** Values of the JavaScript runtime that the wallet-auth page inspects:
    optional values (`T | null | undefined`) and the untyped values that
    arrive in a `message` event. */
module JsValues {

  /** An optional value: `null`/`undefined` is `None`. */
  datatype Option<+T> = None | Some(value: T)

  /** A JavaScript value as far as the page and its host look into it.
      Numbers are integers here (chain ids and millisecond timestamps). */
  datatype JsValue =
    | Undefined
    | Null
    | Bool(b: bool)
    | Number(n: int)
    | Str(s: string)
    | Object(fields: map<string, JsValue>)

  /** JavaScript truthiness (`!!v`). */
  predicate Truthy(v: JsValue)
  {
    match v
    case Undefined => false
    case Null => false
    case Bool(b) => b
    case Number(n) => n != 0
    case Str(s) => s != ""
    case Object(_) => true
  }

  /** Truthiness of an optional string, as in `if (!address) return`. */
  predicate PresentText(o: Option<string>)
  {
    o.Some? && o.value != ""
  }

  /** Property read `v.key` on a value that is not `null`/`undefined`:
      a primitive has no own data properties the page looks at. */
  function Get(v: JsValue, key: string): (r: JsValue)
    requires v != Undefined && v != Null
    ensures r != Undefined ==> v.Object? && key in v.fields && r == v.fields[key]
    ensures v.Object? && key in v.fields ==> r == v.fields[key]
  {
    if v.Object? && key in v.fields then v.fields[key] else Undefined
  }
}
