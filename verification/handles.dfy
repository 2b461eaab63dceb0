/**
 Values the panel handles without looking inside: optional references, opaque
 handles to the external collaborators (bridge, store, keyboard listener, wall,
 runtime port), and the JavaScript values that travel as message payloads.
 */
module Handles {

  /** A nullable field: `None` is JavaScript's `null`/`undefined`. */
  datatype Option<+T> = None | Some(value: T)

  /** The function `keyboardNav(store)` returns; compared by reference. */
  datatype Listener = Listener(id: nat)

  /** A `Bridge` instance (external message bus). */
  datatype Bridge = Bridge(id: nat)

  /** A `Store` instance built over a bridge. */
  datatype Store = Store(id: nat)

  /** The `wall` object literal that `setup` hands to `bridge.attach`. */
  datatype WallRef = WallRef(id: nat)

  /** The runtime port passed in as `props.port`; allocated by the host. */
  datatype PortRef = PortRef(id: nat)

  /** A JavaScript value, as far as truthiness is concerned. */
  datatype JsValue =
    | Undefined
    | Null
    | Bool(b: bool)
    | Number(n: int)
    | Str(s: string)
    | Object(id: nat)

  /** JavaScript's truthiness: `!v` is true exactly for the falsy values. */
  predicate Truthy(v: JsValue)
  {
    match v
    case Undefined => false
    case Null => false
    case Bool(b) => b
    case Number(n) => n != 0
    case Str(s) => s != ""
    case Object(_) => true
  }
}
