/**
 The externally visible calls the panel makes, recorded in order in an
 append-only log. Each constructor is one call on a collaborator.
 */
module Effects {
  import opened Handles

  /** The DOM event the keyboard listener is registered for. */
  const Keydown: string := "keydown"
  /** The command sent to the bridge on teardown. */
  const Shutdown: string := "shutdown"
  /** The bridge event reporting whether the page runs React. */
  const HasReactEvent: string := "hasReact"
  /** The store event reporting that the connection is established. */
  const ConnectedEvent: string := "connected"

  datatype Effect =
      /** `window.addEventListener(event, listener)` */
    | AddEventListener(event: string, listener: Listener)
      /** `window.removeEventListener(event, listener)` */
    | RemoveEventListener(event: string, listener: Listener)
      /** `new Bridge()` */
    | NewBridge(bridge: Bridge)
      /** `bridge.attach(wall)` */
    | Attach(bridge: Bridge, wall: WallRef)
      /** `bridge.on(event, handler)` */
    | BridgeOn(bridge: Bridge, event: string)
      /** `bridge.send(message)` */
    | BridgeSend(bridge: Bridge, message: string)
      /** `new Store(bridge)` */
    | NewStore(store: Store, bridge: Bridge)
      /** `keyboardNav(store)`, returning `listener` */
    | KeyboardNav(store: Store, listener: Listener)
      /** `store.on(event, handler)` */
    | StoreOn(store: Store, event: string)
      /** `port.disconnect()` */
    | Disconnect(port: PortRef)
      /** `port.onmessage = ...`, installed by the wall's `listen` */
    | SetOnMessage(port: PortRef)
      /** `port.postMessage(data)` */
    | PostMessage(port: PortRef, data: JsValue)
      /** `props.reload()`, run as the `setState` callback of `reload` */
    | ReloadRequested

  /**
   Position of a release step in teardown: the key listener goes first, then
   the bridge shutdown, then the port disconnect. Other effects rank last.
   */
  function TeardownRank(e: Effect): nat
  {
    match e
    case RemoveEventListener(_, _) => 0
    case BridgeSend(_, _) => 1
    case Disconnect(_) => 2
    case _ => 3
  }

  /** True if no handle allocated by the panel in `e` has an id of `n` or more. */
  predicate AllocatedBelow(e: Effect, n: nat)
  {
    match e
    case AddEventListener(_, l) => l.id < n
    case RemoveEventListener(_, l) => l.id < n
    case NewBridge(b) => b.id < n
    case Attach(b, w) => b.id < n && w.id < n
    case BridgeOn(b, _) => b.id < n
    case BridgeSend(b, _) => b.id < n
    case NewStore(st, b) => st.id < n && b.id < n
    case KeyboardNav(st, l) => st.id < n && l.id < n
    case StoreOn(st, _) => st.id < n
    case Disconnect(_) => true
    case SetOnMessage(_) => true
    case PostMessage(_, _) => true
    case ReloadRequested => true
  }

  /** Raising the bound keeps every effect below it. */
  lemma AllocatedBelowMono(e: Effect, n: nat, m: nat)
    requires AllocatedBelow(e, n) && n <= m
    ensures AllocatedBelow(e, m)
  {
  }
}
