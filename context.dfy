/**
 * Untyped values as JavaScript hands them around, and the construct-tree
 * context lookup (`this.node.tryGetContext(key)`) the stacks read their
 * configuration from. The context is an explicit map parameter.
 */
module Context {

  /** A JavaScript value of unknown type (`unknown` in the source). */
  datatype JsValue =
    | JsString(str: string)
    | JsNumber(num: int)
    | JsBool(truth: bool)
    | JsNull
    | JsUndefined
    | JsObject

  /** Context values keyed by name, as supplied to the app (`cdk.json` or `-c key=value`). */
  type ContextMap = map<string, JsValue>

  /** `tryGetContext(key)`: the value under `key`, or `undefined` when there is none. */
  function TryGetContext(ctx: ContextMap, key: string): JsValue
  {
    if key in ctx then ctx[key] else JsUndefined
  }

  /** JavaScript's loose `v == null`: true exactly for `null` and `undefined`. */
  predicate IsNullish(v: JsValue)
  {
    v.JsNull? || v.JsUndefined?
  }
}
