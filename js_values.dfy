/** The JavaScript values that reach the query encoder and the article
    transform untyped (`unknown` in the source): filter values and rich
    article content. */
module JsValues {
  import opened JsText

  /** A JavaScript value. Numbers are integral; an object lists its own
      enumerable properties in `Object.entries` order. */
  datatype JsValue =
    | Undefined
    | Null
    | Bool(b: bool)
    | Number(n: int)
    | Str(s: string)
    | Array(elements: seq<JsValue>)
    | Object(properties: seq<(string, JsValue)>)

  /** `typeof v === 'object' && v !== null`. */
  predicate IsObject(v: JsValue) {
    v.Array? || v.Object?
  }

  /** `String(v)`: arrays join their elements with commas (`null` and
      `undefined` elements become empty), plain objects become
      `[object Object]`. */
  function ToJsString(v: JsValue): (s: string)
    ensures v.Str? ==> s == v.s
    ensures v.Object? ==> s == "[object Object]"
    decreases v
  {
    match v
    case Undefined => "undefined"
    case Null => "null"
    case Bool(b) => if b then "true" else "false"
    case Number(n) => IntToString(n)
    case Str(s) => s
    case Array(xs) =>
      Join(seq(|xs|, i requires 0 <= i < |xs| =>
        if xs[i].Undefined? || xs[i].Null? then "" else ToJsString(xs[i])), ",")
    case Object(_) => "[object Object]"
  }

  /** `Object.entries(v)` for an object: an array's entries are keyed by
      the decimal index. */
  function ObjectEntries(v: JsValue): (es: seq<(string, JsValue)>)
    requires IsObject(v)
    ensures v.Object? ==> es == v.properties
    ensures v.Array? ==> |es| == |v.elements|
    ensures v.Array? ==> forall i :: 0 <= i < |es| ==> es[i] == (NatToString(i), v.elements[i])
  {
    match v
    case Array(xs) => seq(|xs|, i requires 0 <= i < |xs| => (NatToString(i), xs[i]))
    case Object(ps) => ps
  }
}
