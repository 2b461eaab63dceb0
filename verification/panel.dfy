/**
 The Firefox devtools panel as a state machine: the component's state
 (`loading`, `isReact`), its instance fields, and one pure transition for each
 method and each inbound event. Every call on a collaborator is appended to
 `log`.
 */
module Panel {
  import opened Handles
  import opened Effects
  import Walls

  /** What the host passes in: the runtime port. `props.reload` is an effect. */
  datatype Props = Props(port: PortRef)

  /**
   The panel instance. `wall` is the adapter the last `setup` built (the
   source keeps it only in the bridge's closure); `nextHandle` numbers the
   objects the panel creates, so each new one is distinct from all before it.
   */
  datatype PanelState = PanelState(
    loading: bool,
    isReact: bool,
    unMounted: bool,
    keyListener: Option<Listener>,
    bridge: Option<Bridge>,
    port: Option<PortRef>,
    store: Option<Store>,
    wall: Option<Walls.Wall>,
    props: Props,
    nextHandle: nat,
    log: seq<Effect>)

  /** The three screens `render` chooses between. */
  datatype View = NoReact | Connecting | ContainerView

  /** The three boolean flags agree. */
  predicate SameFlags(s: PanelState, r: PanelState)
  {
    r.loading == s.loading && r.isReact == s.isReact && r.unMounted == s.unMounted
  }

  /** Everything except the flags and the log agrees. */
  predicate SameResources(s: PanelState, r: PanelState)
  {
    && r.keyListener == s.keyListener && r.bridge == s.bridge && r.port == s.port
    && r.store == s.store && r.wall == s.wall && r.props == s.props
    && r.nextHandle == s.nextHandle
  }

  /** The effects `r` added on top of `s`, when `r`'s log extends `s`'s. */
  function Added(s: PanelState, r: PanelState): seq<Effect>
    requires s.log <= r.log
  {
    r.log[|s.log|..]
  }

  /** The constructor: loading, assumed React, mounted, holding nothing. */
  function Init(props: Props): (s: PanelState)
    ensures s.loading && s.isReact && !s.unMounted
    ensures s.keyListener == None && s.bridge == None && s.port == None
    ensures s.store == None && s.wall == None
    ensures s.props == props && s.log == []
  {
    PanelState(true, true, false, None, None, None, None, None, props, 0, [])
  }

  /** `componentWillUnmount`: raises the flag and does nothing else. */
  function Unmount(s: PanelState): (r: PanelState)
    ensures r.unMounted
    ensures r.loading == s.loading && r.isReact == s.isReact
    ensures SameResources(s, r) && r.log == s.log
  {
    s.(unMounted := true)
  }

  /** The `hasReact` handler: a falsy payload clears `isReact`; nothing is gated on unmount. */
  function HasReact(s: PanelState, payload: JsValue): (r: PanelState)
    ensures !Truthy(payload) ==> !r.isReact
    ensures Truthy(payload) ==> r == s
    ensures r.loading == s.loading && r.unMounted == s.unMounted
    ensures SameResources(s, r) && r.log == s.log
  {
    if !Truthy(payload) then s.(isReact := false) else s
  }

  /** The `connected` handler: clears `loading`; nothing is gated on unmount. */
  function Connected(s: PanelState): (r: PanelState)
    ensures !r.loading
    ensures r.isReact == s.isReact && r.unMounted == s.unMounted
    ensures SameResources(s, r) && r.log == s.log
  {
    s.(loading := false)
  }

  /** Teardown step 1: remove the stored key listener, if any, and forget it. */
  function RemoveKeyListener(s: PanelState): (r: PanelState)
    ensures r.keyListener == None
    ensures r.log == s.log + ListenerRelease(s.keyListener)
    ensures SameFlags(s, r) && r.bridge == s.bridge && r.port == s.port
  {
    if s.keyListener.Some? then
      s.(keyListener := None, log := s.log + [RemoveEventListener(Keydown, s.keyListener.value)])
    else s
  }

  /** Teardown step 2: tell the bridge, if any, to shut down. The reference is kept for now. */
  function ShutdownBridge(s: PanelState): (r: PanelState)
    ensures r.log == s.log + BridgeRelease(s.bridge)
    ensures SameFlags(s, r) && SameResources(s, r)
  {
    if s.bridge.Some? then s.(log := s.log + [BridgeSend(s.bridge.value, Shutdown)]) else s
  }

  /** Teardown step 3: disconnect the stored port, if any, and forget it. */
  function DisconnectPort(s: PanelState): (r: PanelState)
    ensures r.port == None
    ensures r.log == s.log + PortRelease(s.port)
    ensures SameFlags(s, r) && r.keyListener == s.keyListener && r.bridge == s.bridge
  {
    if s.port.Some? then s.(port := None, log := s.log + [Disconnect(s.port.value)]) else s
  }

  /** `e` releases one of the resources `s` holds, as teardown does. */
  predicate ReleaseOf(s: PanelState, e: Effect)
  {
    match e
    case RemoveEventListener(ev, l) => ev == Keydown && s.keyListener == Some(l)
    case BridgeSend(b, m) => m == Shutdown && s.bridge == Some(b)
    case Disconnect(p) => s.port == Some(p)
    case _ => false
  }

  function ListenerRelease(l: Option<Listener>): seq<Effect>
  {
    if l.Some? then [RemoveEventListener(Keydown, l.value)] else []
  }

  function BridgeRelease(b: Option<Bridge>): seq<Effect>
  {
    if b.Some? then [BridgeSend(b.value, Shutdown)] else []
  }

  function PortRelease(p: Option<PortRef>): seq<Effect>
  {
    if p.Some? then [Disconnect(p.value)] else []
  }

  /** Each held resource's release call, in teardown order. */
  function ReleaseEffects(s: PanelState): seq<Effect>
  {
    ListenerRelease(s.keyListener) + BridgeRelease(s.bridge) + PortRelease(s.port)
  }

  /**
   `teardown`: releases listener, bridge and port in that fixed order, each
   only if held, and leaves all three cleared. Flags, store and wall stay.
   */
  function Teardown(s: PanelState): (r: PanelState)
    ensures r.keyListener == None && r.bridge == None && r.port == None
    ensures SameFlags(s, r)
    ensures r.store == s.store && r.wall == s.wall && r.props == s.props
    ensures r.nextHandle == s.nextHandle
    ensures r.log == s.log + ReleaseEffects(s)
  {
    var t1 := RemoveKeyListener(s);
    var t2 := ShutdownBridge(t1);
    var t3 := DisconnectPort(t2);
    t3.(bridge := None)
  }

  /**
   What teardown emits: a removal of exactly the stored listener, a shutdown of
   exactly the stored bridge and a disconnect of exactly the stored port, each
   present iff that handle is held, and in that order.
   */
  lemma TeardownOrder(s: PanelState)
    ensures var d := Teardown(s).log[|s.log|..];
      && (s.keyListener.Some? ==> RemoveEventListener(Keydown, s.keyListener.value) in d)
      && (s.bridge.Some? ==> BridgeSend(s.bridge.value, Shutdown) in d)
      && (s.port.Some? ==> Disconnect(s.port.value) in d)
      && (forall i :: 0 <= i < |d| ==> ReleaseOf(s, d[i]))
      && (forall i, j :: 0 <= i < j < |d| ==> TeardownRank(d[i]) < TeardownRank(d[j]))
  {
    assert Teardown(s).log[|s.log|..] == ReleaseEffects(s);
    ReleaseShape(s);
  }

  lemma ReleaseShape(s: PanelState)
    ensures forall i :: 0 <= i < |ReleaseEffects(s)| ==> ReleaseOf(s, ReleaseEffects(s)[i])
    ensures forall i, j :: 0 <= i < j < |ReleaseEffects(s)| ==>
      TeardownRank(ReleaseEffects(s)[i]) < TeardownRank(ReleaseEffects(s)[j])
  {
    var d1 := ListenerRelease(s.keyListener);
    var d2 := BridgeRelease(s.bridge);
    var d3 := PortRelease(s.port);
    assert forall i :: 0 <= i < |d1| ==> TeardownRank(d1[i]) == 0 && ReleaseOf(s, d1[i]);
    assert forall i :: 0 <= i < |d2| ==> TeardownRank(d2[i]) == 1 && ReleaseOf(s, d2[i]);
    assert forall i :: 0 <= i < |d3| ==> TeardownRank(d3[i]) == 2 && ReleaseOf(s, d3[i]);
    var d := d1 + d2 + d3;
    assert ReleaseEffects(s) == d;
    forall i | 0 <= i < |d|
      ensures ReleaseOf(s, d[i])
      ensures TeardownRank(d[i]) == if i < |d1| then 0 else if i < |d1| + |d2| then 1 else 2
    {
      if i < |d1| {
        assert d[i] == d1[i];
      } else if i < |d1| + |d2| {
        assert d[i] == d2[i - |d1|];
      } else {
        assert d[i] == d3[i - |d1| - |d2|];
      }
    }
  }

  /** Teardown on a state that holds nothing emits nothing and changes nothing. */
  lemma TeardownIdempotent(s: PanelState)
    ensures Teardown(Teardown(s)) == Teardown(s)
    ensures s.keyListener.None? && s.bridge.None? && s.port.None? ==> Teardown(s) == s
  {
  }

  /** `e` creates, wires up or registers one of the given fresh objects, as setup does. */
  predicate AcquireOf(bridge: Bridge, wall: WallRef, store: Store, listener: Listener, e: Effect)
  {
    match e
    case NewBridge(b) => b == bridge
    case Attach(b, w) => b == bridge && w == wall
    case AddEventListener(ev, l) => ev == Keydown && l == listener
    case BridgeOn(b, ev) => b == bridge && ev == HasReactEvent
    case NewStore(st, b) => st == store && b == bridge
    case KeyboardNav(st, l) => st == store && l == listener
    case StoreOn(st, ev) => st == store && ev == ConnectedEvent
    case _ => false
  }

  /** The calls `setup` makes, in source order, for freshly created objects. */
  function SetupEffects(bridge: Bridge, wall: WallRef, store: Store, listener: Listener): (d: seq<Effect>)
    ensures forall i :: 0 <= i < |d| ==> AcquireOf(bridge, wall, store, listener, d[i])
  {
    [NewBridge(bridge), Attach(bridge, wall), BridgeOn(bridge, HasReactEvent),
     NewStore(store, bridge), KeyboardNav(store, listener),
     AddEventListener(Keydown, listener), StoreOn(store, ConnectedEvent)]
  }

  /**
   Setup creates one bridge, attaches it once, asks `keyboardNav` once for the
   listener and registers that listener once.
   */
  lemma SetupCallsOnce(bridge: Bridge, wall: WallRef, store: Store, listener: Listener)
    ensures multiset(SetupEffects(bridge, wall, store, listener))[NewBridge(bridge)] == 1
    ensures multiset(SetupEffects(bridge, wall, store, listener))[Attach(bridge, wall)] == 1
    ensures multiset(SetupEffects(bridge, wall, store, listener))[AddEventListener(Keydown, listener)] == 1
    ensures multiset(SetupEffects(bridge, wall, store, listener))[KeyboardNav(store, listener)] == 1
  {
  }

  /**
   `setup`: builds a wall over `props.port`, creates a bridge and attaches it
   to the wall, subscribes `hasReact`, creates a store, registers the
   keyboard listener for `keydown`, and subscribes `connected`. `_port` is
   not assigned.
   */
  function Setup(s: PanelState): (r: PanelState)
    ensures SameFlags(s, r) && r.port == s.port && r.props == s.props
    ensures r.keyListener.Some? && r.bridge.Some? && r.store.Some? && r.wall.Some?
    ensures r.wall.value.port == s.props.port && !r.wall.value.disconnected
    ensures r.keyListener.value.id >= s.nextHandle && r.bridge.value.id >= s.nextHandle
    ensures r.wall.value.ref.id >= s.nextHandle && r.store.value.id >= s.nextHandle
    ensures r.nextHandle > r.keyListener.value.id && r.nextHandle > r.bridge.value.id
    ensures r.nextHandle > r.wall.value.ref.id && r.nextHandle > r.store.value.id
    ensures s.log <= r.log
    ensures Added(s, r) == SetupEffects(r.bridge.value, r.wall.value.ref, r.store.value, r.keyListener.value)
  {
    var n := s.nextHandle;
    var wall := Walls.Create(WallRef(n), s.props.port);
    var bridge := Bridge(n + 1);
    var store := Store(n + 2);
    var listener := Listener(n + 3);
    var r := s.(wall := Some(wall), bridge := Some(bridge), store := Some(store),
                keyListener := Some(listener), nextHandle := n + 4,
                log := s.log + SetupEffects(bridge, wall.ref, store, listener));
    assert Added(s, r) == SetupEffects(bridge, wall.ref, store, listener);
    r
  }

  /**
   `reload`: a full teardown, then, only while mounted, `loading := true`
   with `props.reload` called once as the `setState` callback. `isReact` is
   never reset.
   */
  function Reload(s: PanelState): (r: PanelState)
    ensures r.keyListener == None && r.bridge == None && r.port == None
    ensures r.isReact == s.isReact && r.unMounted == s.unMounted
    ensures r.store == s.store && r.wall == s.wall && r.props == s.props
    ensures r.nextHandle == s.nextHandle
    ensures !s.unMounted ==> r.loading
    ensures s.unMounted ==> r.loading == s.loading
    ensures Teardown(s).log <= r.log
    ensures |r.log| == |Teardown(s).log| + (if s.unMounted then 0 else 1)
    ensures !s.unMounted ==> r.log[|r.log| - 1] == ReloadRequested
    ensures multiset(r.log)[ReloadRequested] == multiset(s.log)[ReloadRequested] + if s.unMounted then 0 else 1
  {
    var t := Teardown(s);
    ReleaseNeverReloads(s);
    if !t.unMounted then RequestReload(t) else t
  }

  /** The `setState({loading: true}, props.reload)` half of `reload`. */
  function RequestReload(t: PanelState): (r: PanelState)
    ensures r.loading && r.isReact == t.isReact && r.unMounted == t.unMounted
    ensures SameResources(t, r)
    ensures r.log == t.log + [ReloadRequested]
  {
    t.(loading := true, log := t.log + [ReloadRequested])
  }

  /** Teardown never calls `props.reload`. */
  lemma ReleaseNeverReloads(s: PanelState)
    ensures multiset(ReleaseEffects(s))[ReloadRequested] == 0
  {
  }

  /**
   `componentDidMount`: runs `setup`, so the mounted panel holds a bridge
   attached to a live wall over `props.port` and one registered `keydown`
   listener, and still holds no port.
   */
  function DidMount(s: PanelState): (r: PanelState)
    ensures SameFlags(s, r) && r.port == s.port && r.props == s.props
    ensures r.keyListener.Some? && r.bridge.Some? && r.wall.Some?
    ensures !r.wall.value.disconnected && r.wall.value.port == s.props.port
    ensures s.log <= r.log
  {
    Setup(s)
  }

  /**
   Mounting calls `new Bridge`, `bridge.attach(wall)` and
   `addEventListener('keydown', …)` exactly once each, for the very bridge,
   wall and listener the panel then holds.
   */
  lemma DidMountAcquires(s: PanelState)
    ensures var r := DidMount(s);
      && r.bridge.Some? && r.wall.Some? && r.keyListener.Some? && s.log <= r.log
      && multiset(Added(s, r))[NewBridge(r.bridge.value)] == 1
      && multiset(Added(s, r))[Attach(r.bridge.value, r.wall.value.ref)] == 1
      && multiset(Added(s, r))[AddEventListener(Keydown, r.keyListener.value)] == 1
  {
    var r := Setup(s);
    SetupCallsOnce(r.bridge.value, r.wall.value.ref, r.store.value, r.keyListener.value);
  }

  /** The bridge calling `wall.send(data)` on the wall of the last setup. */
  function WallSend(s: PanelState, data: JsValue): (r: PanelState)
    ensures SameFlags(s, r) && SameResources(s, r) && s.log <= r.log
    ensures s.wall.Some? && !s.wall.value.disconnected ==> Added(s, r) == [PostMessage(s.wall.value.port, data)]
    ensures s.wall.None? || s.wall.value.disconnected ==> r.log == s.log
  {
    if s.wall.Some? then s.(log := s.log + Walls.Send(s.wall.value, data)) else s
  }

  /** The bridge calling `wall.listen(fn)` on the wall of the last setup. */
  function WallListen(s: PanelState): (r: PanelState)
    ensures SameFlags(s, r) && SameResources(s, r) && s.log <= r.log
    ensures s.wall.Some? ==> Added(s, r) == [SetOnMessage(s.wall.value.port)]
    ensures s.wall.None? ==> r.log == s.log
  {
    if s.wall.Some? then s.(log := s.log + Walls.Listen(s.wall.value)) else s
  }

  /** `render`: "No React" wins over "Connecting", which wins over the container. */
  function Render(s: PanelState): (v: View)
    ensures v == NoReact <==> !s.isReact
    ensures v == Connecting <==> s.isReact && s.loading
    ensures v == ContainerView <==> s.isReact && !s.loading
  {
    if !s.isReact then NoReact
    else if s.loading then Connecting
    else ContainerView
  }
}
