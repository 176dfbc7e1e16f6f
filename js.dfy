/** The JavaScript values the worker reads out of JSON and out of its
    configuration, and the few JavaScript rules it relies on: strict equality
    with `true`/`"true"`, truthiness, property reads, and `JSON.parse`
    wrapped in a `try`. */
module Js {
  import opened Wrappers

  /** A JSON value. Numbers are integers here: no field the worker reads is
      fractional. */
  datatype JsValue =
    | JNull
    | JBool(b: bool)
    | JNum(n: int)
    | JStr(s: string)
    | JArr(items: seq<JsValue>)
    | JObj(props: map<string, JsValue>)

  /** What a property or configuration variable holds; `None` is `undefined`. */
  type Binding = Option<JsValue>

  /** `envIsTrue` (worker.js:193-195): strictly `true` or the string "true".
      The same test is written inline for `isGlobalMaintenance`,
      `ENABLE_CACHE` and `ENABLE_REPORT_ERROR`. */
  predicate EnvIsTrue(v: Binding) {
    v == Some(JBool(true)) || v == Some(JStr("true"))
  }

  /** JavaScript truthiness: `undefined`, `null`, `false`, `0` and `""` are
      falsy, every other value is truthy. */
  predicate Truthy(v: Binding) {
    match v
    case None => false
    case Some(JNull) => false
    case Some(JBool(b)) => b
    case Some(JNum(n)) => n != 0
    case Some(JStr(s)) => s != ""
    case Some(_) => true
  }

  /** `envIsTrue` is strictly narrower than truthiness: the admin feature
      gates test truthiness, so "false" and 1 open them although the worker
      treats the same settings as off. */
  lemma EnvIsTrueNarrowerThanTruthy(v: Binding)
    ensures EnvIsTrue(v) ==> Truthy(v)
    ensures Truthy(Some(JStr("false"))) && !EnvIsTrue(Some(JStr("false")))
    ensures Truthy(Some(JNum(1))) && !EnvIsTrue(Some(JNum(1)))
  {
  }

  /** `obj[key]` for a value that is not `null`: only objects have the
      properties the worker looks for; on anything else the read gives
      `undefined`. */
  function Prop(obj: JsValue, key: string): Binding {
    if obj.JObj? && key in obj.props then Some(obj.props[key]) else None
  }

  /** `JSON.stringify` and `JSON.parse`, supplied by the runtime; `parse`
      answers `None` where JSON.parse throws a SyntaxError. */
  datatype Codec = Codec(stringify: JsValue -> string, parse: string -> Option<JsValue>)

  /** What the runtime guarantees of the pair: every serialisation is a
      non-empty JSON text that parses back to the value. */
  ghost predicate RoundTrips(c: Codec) {
    forall v :: c.stringify(v) != "" && c.parse(c.stringify(v)) == Some(v)
  }

  /** `safeJsonParse(str, fallback)` (worker.js:18-20): `JSON.parse(str || '')`
      with the fallback on a SyntaxError. A missing value and "" both become
      '' and fail to parse. */
  function SafeJsonParse(codec: Codec, str: Option<string>, fallback: JsValue): JsValue {
    if str == None || str == Some("") then fallback
    else codec.parse(str.value).GetOr(fallback)
  }

  /** safeJsonParse gives back what was serialised, and the fallback exactly
      when the text is missing, empty or not JSON. */
  lemma SafeJsonParseSpec(codec: Codec, str: Option<string>, fallback: JsValue, v: JsValue)
    requires RoundTrips(codec)
    ensures SafeJsonParse(codec, Some(codec.stringify(v)), fallback) == v
    ensures (str == None || str == Some("") || codec.parse(str.value) == None) ==>
              SafeJsonParse(codec, str, fallback) == fallback
    ensures str.Some? && str.value != "" && codec.parse(str.value).Some? ==>
              SafeJsonParse(codec, str, fallback) == codec.parse(str.value).value
  {
    assert codec.stringify(v) != "" && codec.parse(codec.stringify(v)) == Some(v);
  }
}
